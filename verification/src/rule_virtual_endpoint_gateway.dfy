/** rules/rule_ibm_is_virtual_endpoint_gateway.go */
module VirtualEndpointGateway {
  import opened Wrappers
  import opened Hcl
  import opened Tflint
  import opened Checks

  const RuleName := "ibm_is_virtual_endpoint_gateway"
  const ResourceType := "ibm_is_virtual_endpoint_gateway"
  const RequiredAttrs := ["name", "vpc"]
  const TargetAttrs := ["name", "resource_type"]
  const TargetTemplate := Template("`", "` attribute must be specified in target block")
  const ResourceTypes: set<GoString> := {"provider_cloud_service", "provider_infrastructure_service"}
  const ResourceTypeMsg := Text("resource_type must be either 'provider_cloud_service' or 'provider_infrastructure_service'")
  const NoTarget := Text("target block must be specified")

  /** One nested block: a `target` block needs `name` and `resource_type`, the latter from a fixed set. */
  function TargetIssues(b: Block, env: Env): Outcome {
    if b.typ != "target" then Pass else
    var o := Ok(Missing(RuleName, b, TargetAttrs, TargetTemplate));
    Then(o, Enum(RuleName, b, env, "resource_type", ResourceTypes, ResourceTypeMsg))
  }

  method CheckTarget(runner: Runner, b: Block) returns (err: Option<Error>)
    modifies runner
    ensures Produced(runner, old(runner.issues), err, TargetIssues(b, runner.env))
  {
    if b.typ != "target" {
      return None;
    }
    err := None;
    CheckRequired(runner, RuleName, b, TargetAttrs, TargetTemplate);
    ghost var done := Ok(Missing(RuleName, b, TargetAttrs, TargetTemplate));
    ghost var step := Enum(RuleName, b, runner.env, "resource_type", ResourceTypes, ResourceTypeMsg);
    err := CheckEnum(runner, RuleName, b, "resource_type", ResourceTypes, ResourceTypeMsg);
    Extend(old(runner.issues), done, step);
  }

  /** The `target` loop, then the test on whether such a block exists. */
  function TargetsIssues(b: Block, env: Env): Outcome {
    Then(ForEach(b.body.blocks, env, TargetIssues),
         Ok(if AnyOfType(b.body.blocks, "target") then [] else [Issue(RuleName, NoTarget, b.defRange)]))
  }

  /** The loop over the blocks nested in `b`, acting on the `target` blocks. */
  method CheckTargets(runner: Runner, b: Block) returns (err: Option<Error>)
    modifies runner
    ensures Produced(runner, old(runner.issues), err, TargetsIssues(b, runner.env))
  {
    var blocks := b.body.blocks;
    var hasTarget := false;
    var i := 0;
    while i < |blocks|
      invariant 0 <= i <= |blocks|
      invariant hasTarget == AnyOfType(blocks[..i], "target")
      invariant Produced(runner, old(runner.issues), None, ForEach(blocks[..i], runner.env, TargetIssues))
    {
      AnyOfTypeStep(blocks, i, "target");
      if blocks[i].typ == "target" {
        hasTarget := true;
      }
      err := CheckTargetsStep(runner, blocks, i, old(runner.issues));
      if err.Some? {
        ForEachStopsAtError(blocks, i + 1, runner.env, TargetIssues);
        return;
      }
      i := i + 1;
    }
    assert blocks[..i] == blocks;
    ghost var loop := ForEach(blocks, runner.env, TargetIssues);
    if !hasTarget {
      runner.EmitIssue(RuleName, NoTarget, b.defRange);
    }
    Extend(old(runner.issues), loop, Ok(if AnyOfType(blocks, "target") then [] else [Issue(RuleName, NoTarget, b.defRange)]));
    return None;
  }

  /** One iteration of the `target` loop. */
  method CheckTargetsStep(runner: Runner, blocks: seq<Block>, i: nat, ghost before: seq<Issue>) returns (err: Option<Error>)
    requires i < |blocks|
    requires Produced(runner, before, None, ForEach(blocks[..i], runner.env, TargetIssues))
    modifies runner
    ensures Produced(runner, before, err, ForEach(blocks[..i + 1], runner.env, TargetIssues))
  {
    ForEachStep(blocks, i, runner.env, TargetIssues);
    err := CheckTarget(runner, blocks[i]);
    Extend(before, ForEach(blocks[..i], runner.env, TargetIssues), TargetIssues(blocks[i], runner.env));
  }

  predicate TargetIssuesClean(b: Block, env: Env) {
    b.typ == "target" ==>
      (forall a :: a in TargetAttrs ==> Has(b, a))
      && StrIn(b, env, "resource_type", ResourceTypes)
  }

  lemma TargetIssuesPasses(b: Block, env: Env)
    ensures TargetIssues(b, env) == Pass <==> TargetIssuesClean(b, env)
  {
    if b.typ == "target" {
      var o0 := Ok(Missing(RuleName, b, TargetAttrs, TargetTemplate));
      var s1 := Enum(RuleName, b, env, "resource_type", ResourceTypes, ResourceTypeMsg);
      ThenPass(o0, s1);
      MissingNone(RuleName, b, TargetAttrs, TargetTemplate);
      EnumPass(RuleName, b, env, "resource_type", ResourceTypes, ResourceTypeMsg);
    }
  }

  predicate TargetsIssuesClean(b: Block, env: Env) {
    (forall i :: 0 <= i < |b.body.blocks| ==> TargetIssuesClean(b.body.blocks[i], env))
    && AnyOfType(b.body.blocks, "target")
  }

  lemma TargetsIssuesPasses(b: Block, env: Env)
    ensures TargetsIssues(b, env) == Pass <==> TargetsIssuesClean(b, env)
  {
    ThenPass(ForEach(b.body.blocks, env, TargetIssues), Ok(if AnyOfType(b.body.blocks, "target") then [] else [Issue(RuleName, NoTarget, b.defRange)]));
    ForEachPass(b.body.blocks, env, TargetIssues);
    forall i | 0 <= i < |b.body.blocks| {
      TargetIssuesPasses(b.body.blocks[i], env);
    }
  }

  /**
   * Without any `target` block, the `target` loop draws exactly one issue,
   * "target block must be specified", at `b`'s range.
   */
  lemma NoTargetReported(b: Block, env: Env)
    requires !AnyOfType(b.body.blocks, "target")
    ensures TargetsIssues(b, env) == Ok([Issue(RuleName, NoTarget, b.defRange)])
  {
    AnyOfTypeIff(b.body.blocks, "target");
    ForEachPass(b.body.blocks, env, TargetIssues);
  }

  /** What `Check` does with one resource block. */
  function ResourceIssues(b: Block, env: Env): Outcome {
    var o := Ok(Missing(RuleName, b, RequiredAttrs, AttributeMustBeSpecified));
    var o := Then(o, NameLength(RuleName, b, env, "name", NameEmpty, NameTooLong));
    Then(o, TargetsIssues(b, env))
  }

  method CheckResource(runner: Runner, b: Block) returns (err: Option<Error>)
    modifies runner
    ensures Produced(runner, old(runner.issues), err, ResourceIssues(b, runner.env))
  {
    err := None;
    CheckRequired(runner, RuleName, b, RequiredAttrs, AttributeMustBeSpecified);
    ghost var done := Ok(Missing(RuleName, b, RequiredAttrs, AttributeMustBeSpecified));
    ghost var step := NameLength(RuleName, b, runner.env, "name", NameEmpty, NameTooLong);
    err := CheckNameLength(runner, RuleName, b, "name", NameEmpty, NameTooLong);
    Extend(old(runner.issues), done, step);
    if err.Some? {
      return;
    }
    done := Then(done, step);
    step := TargetsIssues(b, runner.env);
    err := CheckTargets(runner, b);
    Extend(old(runner.issues), done, step);
  }

  method Check(runner: Runner) returns (err: Option<Error>)
    modifies runner
    ensures Produced(runner, old(runner.issues), err, RunRule(runner.content, ResourceType, runner.env, ResourceIssues))
  {
    var resources := runner.GetResourceContent(ResourceType);
    if resources.Failure? {
      return Some(resources.error);
    }
    var blocks := resources.value;
    var i := 0;
    while i < |blocks|
      invariant 0 <= i <= |blocks|
      invariant Produced(runner, old(runner.issues), None, ForEach(blocks[..i], runner.env, ResourceIssues))
    {
      ForEachStep(blocks, i, runner.env, ResourceIssues);
      err := CheckResource(runner, blocks[i]);
      Extend(old(runner.issues), ForEach(blocks[..i], runner.env, ResourceIssues), ResourceIssues(blocks[i], runner.env));
      if err.Some? {
        ForEachStopsAtError(blocks, i + 1, runner.env, ResourceIssues);
        return;
      }
      i := i + 1;
    }
    assert blocks[..i] == blocks;
    return None;
  }

  /** What a resource must satisfy to draw no issue and no error. */
  predicate Clean(b: Block, env: Env) {
    (forall a :: a in RequiredAttrs ==> Has(b, a))
    && NameOk(b, env, "name")
    && TargetsIssuesClean(b, env)
  }

  /** A resource draws no issue and no error exactly when it is clean. */
  lemma Passes(b: Block, env: Env)
    ensures ResourceIssues(b, env) == Pass <==> Clean(b, env)
  {
    var o0 := Ok(Missing(RuleName, b, RequiredAttrs, AttributeMustBeSpecified));
    var s1 := NameLength(RuleName, b, env, "name", NameEmpty, NameTooLong);
    ThenPass(o0, s1);
    var o1 := Then(o0, s1);
    var s2 := TargetsIssues(b, env);
    ThenPass(o1, s2);
    MissingNone(RuleName, b, RequiredAttrs, AttributeMustBeSpecified);
    NameLengthPass(RuleName, b, env, "name", NameEmpty, NameTooLong);
    TargetsIssuesPasses(b, env);
  }
}
