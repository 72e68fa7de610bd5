/** rules/rule_ibm_is_vpc_dns_resolution_binding.go */
module VpcDnsResolutionBinding {
  import opened Wrappers
  import opened Hcl
  import opened Tflint
  import opened Checks

  const RuleName := "ibm_is_vpc_dns_resolution_binding"
  const ResourceType := "ibm_is_vpc_dns_resolution_binding"
  const RequiredAttrs := ["name"]
  const VpcIdMissing := Text("id attribute must be specified in vpc block")
  const NoVpc := Text("either vpc_id attribute or vpc block must be specified")
  const BothVpc := Text("cannot specify both vpc_id attribute and vpc block")

  /** One nested block: a `vpc` block needs `id`. */
  function VpcIssues(b: Block, env: Env): Outcome {
    if b.typ != "vpc" then Pass else
    Ok(Require(RuleName, b, "id", VpcIdMissing))
  }

  method CheckVpc(runner: Runner, b: Block)
    modifies runner
    ensures Produced(runner, old(runner.issues), None, VpcIssues(b, runner.env))
  {
    if b.typ != "vpc" {
      return;
    }
    CheckRequire(runner, RuleName, b, "id", VpcIdMissing);
  }

  /** The `vpc` loop, then the test on whether such a block exists. */
  function VpcsIssues(b: Block, env: Env): Outcome {
    Then(ForEach(b.body.blocks, env, VpcIssues),
         Ok(OneOf(RuleName, b, Has(b, "vpc_id"), AnyOfType(b.body.blocks, "vpc"), BothVpc, NoVpc)))
  }

  /** The loop over the blocks nested in `b`, acting on the `vpc` blocks. */
  method CheckVpcs(runner: Runner, b: Block)
    modifies runner
    ensures Produced(runner, old(runner.issues), None, VpcsIssues(b, runner.env))
  {
    var blocks := b.body.blocks;
    var hasVpcBlock := false;
    var i := 0;
    while i < |blocks|
      invariant 0 <= i <= |blocks|
      invariant hasVpcBlock == AnyOfType(blocks[..i], "vpc")
      invariant Produced(runner, old(runner.issues), None, ForEach(blocks[..i], runner.env, VpcIssues))
    {
      AnyOfTypeStep(blocks, i, "vpc");
      ForEachAppend(old(runner.issues), blocks, i, runner.env, VpcIssues);
      var blk := blocks[i];
      if blk.typ == "vpc" {
        hasVpcBlock := true;
      }
      CheckVpc(runner, blk);
      i := i + 1;
    }
    assert blocks[..i] == blocks;
    ghost var loop := ForEach(blocks, runner.env, VpcIssues);
    CheckOneOf(runner, RuleName, b, "vpc_id" in b.body.attributes, hasVpcBlock, BothVpc, NoVpc);
    Extend(old(runner.issues), loop, Ok(OneOf(RuleName, b, Has(b, "vpc_id"), AnyOfType(blocks, "vpc"), BothVpc, NoVpc)));
  }

  predicate VpcIssuesClean(b: Block, env: Env) {
    b.typ == "vpc" ==>
      Has(b, "id")
  }

  lemma VpcIssuesPasses(b: Block, env: Env)
    ensures VpcIssues(b, env) == Pass <==> VpcIssuesClean(b, env)
  {
  }

  predicate VpcsIssuesClean(b: Block, env: Env) {
    (forall i :: 0 <= i < |b.body.blocks| ==> VpcIssuesClean(b.body.blocks[i], env))
    && Has(b, "vpc_id") != AnyOfType(b.body.blocks, "vpc")
  }

  lemma VpcsIssuesPasses(b: Block, env: Env)
    ensures VpcsIssues(b, env) == Pass <==> VpcsIssuesClean(b, env)
  {
    ThenPass(ForEach(b.body.blocks, env, VpcIssues), Ok(OneOf(RuleName, b, Has(b, "vpc_id"), AnyOfType(b.body.blocks, "vpc"), BothVpc, NoVpc)));
    ForEachPass(b.body.blocks, env, VpcIssues);
    forall i | 0 <= i < |b.body.blocks| {
      VpcIssuesPasses(b.body.blocks[i], env);
    }
  }

  /** What `Check` does with one resource block. */
  function ResourceIssues(b: Block, env: Env): Outcome {
    var o := Ok(Missing(RuleName, b, RequiredAttrs, MustBeSpecified));
    var o := Then(o, VpcsIssues(b, env));
    Then(o, NameLength(RuleName, b, env, "name", NameEmpty, NameTooLong))
  }

  method CheckResource(runner: Runner, b: Block) returns (err: Option<Error>)
    modifies runner
    ensures Produced(runner, old(runner.issues), err, ResourceIssues(b, runner.env))
  {
    err := None;
    CheckRequired(runner, RuleName, b, RequiredAttrs, MustBeSpecified);
    ghost var done := Ok(Missing(RuleName, b, RequiredAttrs, MustBeSpecified));
    ghost var step := VpcsIssues(b, runner.env);
    CheckVpcs(runner, b);
    Extend(old(runner.issues), done, step);
    done := Then(done, step);
    step := NameLength(RuleName, b, runner.env, "name", NameEmpty, NameTooLong);
    err := CheckNameLength(runner, RuleName, b, "name", NameEmpty, NameTooLong);
    Extend(old(runner.issues), done, step);
  }

  method Check(runner: Runner) returns (err: Option<Error>)
    modifies runner
    ensures Produced(runner, old(runner.issues), err, RunRule(runner.content, ResourceType, runner.env, ResourceIssues))
  {
    var resources := runner.GetResourceContent(ResourceType);
    if resources.Failure? {
      return Some(resources.error);
    }
    var blocks := resources.value;
    var i := 0;
    while i < |blocks|
      invariant 0 <= i <= |blocks|
      invariant Produced(runner, old(runner.issues), None, ForEach(blocks[..i], runner.env, ResourceIssues))
    {
      ForEachStep(blocks, i, runner.env, ResourceIssues);
      err := CheckResource(runner, blocks[i]);
      Extend(old(runner.issues), ForEach(blocks[..i], runner.env, ResourceIssues), ResourceIssues(blocks[i], runner.env));
      if err.Some? {
        ForEachStopsAtError(blocks, i + 1, runner.env, ResourceIssues);
        return;
      }
      i := i + 1;
    }
    assert blocks[..i] == blocks;
    return None;
  }

  /** What a resource must satisfy to draw no issue and no error. */
  predicate Clean(b: Block, env: Env) {
    (forall a :: a in RequiredAttrs ==> Has(b, a))
    && VpcsIssuesClean(b, env)
    && NameOk(b, env, "name")
  }

  /** A resource draws no issue and no error exactly when it is clean. */
  lemma Passes(b: Block, env: Env)
    ensures ResourceIssues(b, env) == Pass <==> Clean(b, env)
  {
    var o0 := Ok(Missing(RuleName, b, RequiredAttrs, MustBeSpecified));
    var s1 := VpcsIssues(b, env);
    ThenPass(o0, s1);
    var o1 := Then(o0, s1);
    var s2 := NameLength(RuleName, b, env, "name", NameEmpty, NameTooLong);
    ThenPass(o1, s2);
    MissingNone(RuleName, b, RequiredAttrs, MustBeSpecified);
    VpcsIssuesPasses(b, env);
    NameLengthPass(RuleName, b, env, "name", NameEmpty, NameTooLong);
  }
}
