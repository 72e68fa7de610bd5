/** rules/rule_ibm_is_snapshot_consistency_group.go */
module SnapshotConsistencyGroup {
  import opened Wrappers
  import opened Hcl
  import opened Tflint
  import opened Checks

  const RuleName := "ibm_is_snapshot_consistency_group"
  const ResourceType := "ibm_is_snapshot_consistency_group"
  const RequiredAttrs := ["name"]
  const NoSnapshots := Text("at least one snapshots block must be specified")
  const SnapshotAttrs := ["name", "source_volume"]
  const SnapshotTemplate := Template("`", "` attribute must be specified in snapshots block")

  /** One nested block: a `snapshots` block needs `name` and `source_volume`. */
  function SnapshotIssues(b: Block, env: Env): Outcome {
    if b.typ != "snapshots" then Pass else
    Ok(Missing(RuleName, b, SnapshotAttrs, SnapshotTemplate))
  }

  method CheckSnapshot(runner: Runner, b: Block)
    modifies runner
    ensures Produced(runner, old(runner.issues), None, SnapshotIssues(b, runner.env))
  {
    if b.typ != "snapshots" {
      return;
    }
    CheckRequired(runner, RuleName, b, SnapshotAttrs, SnapshotTemplate);
  }

  /** The `snapshots` loop, then the test on whether such a block exists. */
  function SnapshotsIssues(b: Block, env: Env): Outcome {
    Then(ForEach(b.body.blocks, env, SnapshotIssues),
         Ok(if AnyOfType(b.body.blocks, "snapshots") then [] else [Issue(RuleName, NoSnapshots, b.defRange)]))
  }

  /** The loop over the blocks nested in `b`, acting on the `snapshots` blocks. */
  method CheckSnapshots(runner: Runner, b: Block)
    modifies runner
    ensures Produced(runner, old(runner.issues), None, SnapshotsIssues(b, runner.env))
  {
    var blocks := b.body.blocks;
    var hasSnapshots := false;
    var i := 0;
    while i < |blocks|
      invariant 0 <= i <= |blocks|
      invariant hasSnapshots == AnyOfType(blocks[..i], "snapshots")
      invariant Produced(runner, old(runner.issues), None, ForEach(blocks[..i], runner.env, SnapshotIssues))
    {
      AnyOfTypeStep(blocks, i, "snapshots");
      ForEachAppend(old(runner.issues), blocks, i, runner.env, SnapshotIssues);
      var blk := blocks[i];
      if blk.typ == "snapshots" {
        hasSnapshots := true;
      }
      CheckSnapshot(runner, blk);
      i := i + 1;
    }
    assert blocks[..i] == blocks;
    ghost var loop := ForEach(blocks, runner.env, SnapshotIssues);
    if !hasSnapshots {
      runner.EmitIssue(RuleName, NoSnapshots, b.defRange);
    }
    Extend(old(runner.issues), loop, Ok(if AnyOfType(blocks, "snapshots") then [] else [Issue(RuleName, NoSnapshots, b.defRange)]));
  }

  predicate SnapshotIssuesClean(b: Block, env: Env) {
    b.typ == "snapshots" ==>
      (forall a :: a in SnapshotAttrs ==> Has(b, a))
  }

  lemma SnapshotIssuesPasses(b: Block, env: Env)
    ensures SnapshotIssues(b, env) == Pass <==> SnapshotIssuesClean(b, env)
  {
    if b.typ == "snapshots" {
      MissingNone(RuleName, b, SnapshotAttrs, SnapshotTemplate);
    }
  }

  predicate SnapshotsIssuesClean(b: Block, env: Env) {
    (forall i :: 0 <= i < |b.body.blocks| ==> SnapshotIssuesClean(b.body.blocks[i], env))
    && AnyOfType(b.body.blocks, "snapshots")
  }

  lemma SnapshotsIssuesPasses(b: Block, env: Env)
    ensures SnapshotsIssues(b, env) == Pass <==> SnapshotsIssuesClean(b, env)
  {
    ThenPass(ForEach(b.body.blocks, env, SnapshotIssues), Ok(if AnyOfType(b.body.blocks, "snapshots") then [] else [Issue(RuleName, NoSnapshots, b.defRange)]));
    ForEachPass(b.body.blocks, env, SnapshotIssues);
    forall i | 0 <= i < |b.body.blocks| {
      SnapshotIssuesPasses(b.body.blocks[i], env);
    }
  }

  /**
   * Without any `snapshots` block, the `snapshots` loop draws exactly one issue,
   * "at least one snapshots block must be specified", at `b`'s range.
   */
  lemma NoSnapshotsReported(b: Block, env: Env)
    requires !AnyOfType(b.body.blocks, "snapshots")
    ensures SnapshotsIssues(b, env) == Ok([Issue(RuleName, NoSnapshots, b.defRange)])
  {
    AnyOfTypeIff(b.body.blocks, "snapshots");
    ForEachPass(b.body.blocks, env, SnapshotIssues);
  }

  /** What `Check` does with one resource block. */
  function ResourceIssues(b: Block, env: Env): Outcome {
    var o := Ok(Missing(RuleName, b, RequiredAttrs, AttributeMustBeSpecified));
    var o := Then(o, NameLength(RuleName, b, env, "name", NameEmpty, NameTooLong));
    Then(o, SnapshotsIssues(b, env))
  }

  method CheckResource(runner: Runner, b: Block) returns (err: Option<Error>)
    modifies runner
    ensures Produced(runner, old(runner.issues), err, ResourceIssues(b, runner.env))
  {
    err := None;
    CheckRequired(runner, RuleName, b, RequiredAttrs, AttributeMustBeSpecified);
    ghost var done := Ok(Missing(RuleName, b, RequiredAttrs, AttributeMustBeSpecified));
    ghost var step := NameLength(RuleName, b, runner.env, "name", NameEmpty, NameTooLong);
    err := CheckNameLength(runner, RuleName, b, "name", NameEmpty, NameTooLong);
    Extend(old(runner.issues), done, step);
    if err.Some? {
      return;
    }
    done := Then(done, step);
    step := SnapshotsIssues(b, runner.env);
    CheckSnapshots(runner, b);
    err := None;
    Extend(old(runner.issues), done, step);
  }

  method Check(runner: Runner) returns (err: Option<Error>)
    modifies runner
    ensures Produced(runner, old(runner.issues), err, RunRule(runner.content, ResourceType, runner.env, ResourceIssues))
  {
    var resources := runner.GetResourceContent(ResourceType);
    if resources.Failure? {
      return Some(resources.error);
    }
    var blocks := resources.value;
    var i := 0;
    while i < |blocks|
      invariant 0 <= i <= |blocks|
      invariant Produced(runner, old(runner.issues), None, ForEach(blocks[..i], runner.env, ResourceIssues))
    {
      ForEachStep(blocks, i, runner.env, ResourceIssues);
      err := CheckResource(runner, blocks[i]);
      Extend(old(runner.issues), ForEach(blocks[..i], runner.env, ResourceIssues), ResourceIssues(blocks[i], runner.env));
      if err.Some? {
        ForEachStopsAtError(blocks, i + 1, runner.env, ResourceIssues);
        return;
      }
      i := i + 1;
    }
    assert blocks[..i] == blocks;
    return None;
  }

  /** What a resource must satisfy to draw no issue and no error. */
  predicate Clean(b: Block, env: Env) {
    (forall a :: a in RequiredAttrs ==> Has(b, a))
    && NameOk(b, env, "name")
    && SnapshotsIssuesClean(b, env)
  }

  /** A resource draws no issue and no error exactly when it is clean. */
  lemma Passes(b: Block, env: Env)
    ensures ResourceIssues(b, env) == Pass <==> Clean(b, env)
  {
    var o0 := Ok(Missing(RuleName, b, RequiredAttrs, AttributeMustBeSpecified));
    var s1 := NameLength(RuleName, b, env, "name", NameEmpty, NameTooLong);
    ThenPass(o0, s1);
    var o1 := Then(o0, s1);
    var s2 := SnapshotsIssues(b, env);
    ThenPass(o1, s2);
    MissingNone(RuleName, b, RequiredAttrs, AttributeMustBeSpecified);
    NameLengthPass(RuleName, b, env, "name", NameEmpty, NameTooLong);
    SnapshotsIssuesPasses(b, env);
  }
}
