/** rules/rule_ibm_is_instance_network_attachment.go */
module InstanceNetworkAttachment {
  import opened Wrappers
  import opened Hcl
  import opened Tflint
  import opened Checks

  const RuleName := "ibm_is_instance_network_attachment"
  const ResourceType := "ibm_is_instance_network_attachment"
  const RequiredAttrs := ["instance", "name"]
  const NoInterface := Text("virtual_network_interface block must be specified")
  const InterfaceIdMissing := Text("id attribute must be specified in virtual_network_interface block")

  /** One nested block: a `virtual_network_interface` block needs `id`. */
  function InterfaceIssues(b: Block, env: Env): Outcome {
    if b.typ != "virtual_network_interface" then Pass else
    Ok(Require(RuleName, b, "id", InterfaceIdMissing))
  }

  method CheckInterface(runner: Runner, b: Block)
    modifies runner
    ensures Produced(runner, old(runner.issues), None, InterfaceIssues(b, runner.env))
  {
    if b.typ != "virtual_network_interface" {
      return;
    }
    CheckRequire(runner, RuleName, b, "id", InterfaceIdMissing);
  }

  /** The `virtual_network_interface` loop, then the test on whether such a block exists. */
  function InterfacesIssues(b: Block, env: Env): Outcome {
    Then(ForEach(b.body.blocks, env, InterfaceIssues),
         Ok(if AnyOfType(b.body.blocks, "virtual_network_interface") then [] else [Issue(RuleName, NoInterface, b.defRange)]))
  }

  /** The loop over the blocks nested in `b`, acting on the `virtual_network_interface` blocks. */
  method CheckInterfaces(runner: Runner, b: Block)
    modifies runner
    ensures Produced(runner, old(runner.issues), None, InterfacesIssues(b, runner.env))
  {
    var blocks := b.body.blocks;
    var hasVni := false;
    var i := 0;
    while i < |blocks|
      invariant 0 <= i <= |blocks|
      invariant hasVni == AnyOfType(blocks[..i], "virtual_network_interface")
      invariant Produced(runner, old(runner.issues), None, ForEach(blocks[..i], runner.env, InterfaceIssues))
    {
      AnyOfTypeStep(blocks, i, "virtual_network_interface");
      ForEachAppend(old(runner.issues), blocks, i, runner.env, InterfaceIssues);
      var blk := blocks[i];
      if blk.typ == "virtual_network_interface" {
        hasVni := true;
      }
      CheckInterface(runner, blk);
      i := i + 1;
    }
    assert blocks[..i] == blocks;
    ghost var loop := ForEach(blocks, runner.env, InterfaceIssues);
    if !hasVni {
      runner.EmitIssue(RuleName, NoInterface, b.defRange);
    }
    Extend(old(runner.issues), loop, Ok(if AnyOfType(blocks, "virtual_network_interface") then [] else [Issue(RuleName, NoInterface, b.defRange)]));
  }

  predicate InterfaceIssuesClean(b: Block, env: Env) {
    b.typ == "virtual_network_interface" ==>
      Has(b, "id")
  }

  lemma InterfaceIssuesPasses(b: Block, env: Env)
    ensures InterfaceIssues(b, env) == Pass <==> InterfaceIssuesClean(b, env)
  {
  }

  predicate InterfacesIssuesClean(b: Block, env: Env) {
    (forall i :: 0 <= i < |b.body.blocks| ==> InterfaceIssuesClean(b.body.blocks[i], env))
    && AnyOfType(b.body.blocks, "virtual_network_interface")
  }

  lemma InterfacesIssuesPasses(b: Block, env: Env)
    ensures InterfacesIssues(b, env) == Pass <==> InterfacesIssuesClean(b, env)
  {
    ThenPass(ForEach(b.body.blocks, env, InterfaceIssues), Ok(if AnyOfType(b.body.blocks, "virtual_network_interface") then [] else [Issue(RuleName, NoInterface, b.defRange)]));
    ForEachPass(b.body.blocks, env, InterfaceIssues);
    forall i | 0 <= i < |b.body.blocks| {
      InterfaceIssuesPasses(b.body.blocks[i], env);
    }
  }

  /**
   * Without any `virtual_network_interface` block, the `virtual_network_interface` loop draws exactly one issue,
   * "virtual_network_interface block must be specified", at `b`'s range.
   */
  lemma NoVirtualNetworkInterfaceReported(b: Block, env: Env)
    requires !AnyOfType(b.body.blocks, "virtual_network_interface")
    ensures InterfacesIssues(b, env) == Ok([Issue(RuleName, NoInterface, b.defRange)])
  {
    AnyOfTypeIff(b.body.blocks, "virtual_network_interface");
    ForEachPass(b.body.blocks, env, InterfaceIssues);
  }

  /** What `Check` does with one resource block. */
  function ResourceIssues(b: Block, env: Env): Outcome {
    var o := Ok(Missing(RuleName, b, RequiredAttrs, AttributeMustBeSpecified));
    var o := Then(o, NameLength(RuleName, b, env, "name", NameEmpty, NameTooLong));
    Then(o, InterfacesIssues(b, env))
  }

  method CheckResource(runner: Runner, b: Block) returns (err: Option<Error>)
    modifies runner
    ensures Produced(runner, old(runner.issues), err, ResourceIssues(b, runner.env))
  {
    err := None;
    CheckRequired(runner, RuleName, b, RequiredAttrs, AttributeMustBeSpecified);
    ghost var done := Ok(Missing(RuleName, b, RequiredAttrs, AttributeMustBeSpecified));
    ghost var step := NameLength(RuleName, b, runner.env, "name", NameEmpty, NameTooLong);
    err := CheckNameLength(runner, RuleName, b, "name", NameEmpty, NameTooLong);
    Extend(old(runner.issues), done, step);
    if err.Some? {
      return;
    }
    done := Then(done, step);
    step := InterfacesIssues(b, runner.env);
    CheckInterfaces(runner, b);
    err := None;
    Extend(old(runner.issues), done, step);
  }

  method Check(runner: Runner) returns (err: Option<Error>)
    modifies runner
    ensures Produced(runner, old(runner.issues), err, RunRule(runner.content, ResourceType, runner.env, ResourceIssues))
  {
    var resources := runner.GetResourceContent(ResourceType);
    if resources.Failure? {
      return Some(resources.error);
    }
    var blocks := resources.value;
    var i := 0;
    while i < |blocks|
      invariant 0 <= i <= |blocks|
      invariant Produced(runner, old(runner.issues), None, ForEach(blocks[..i], runner.env, ResourceIssues))
    {
      ForEachStep(blocks, i, runner.env, ResourceIssues);
      err := CheckResource(runner, blocks[i]);
      Extend(old(runner.issues), ForEach(blocks[..i], runner.env, ResourceIssues), ResourceIssues(blocks[i], runner.env));
      if err.Some? {
        ForEachStopsAtError(blocks, i + 1, runner.env, ResourceIssues);
        return;
      }
      i := i + 1;
    }
    assert blocks[..i] == blocks;
    return None;
  }

  /** What a resource must satisfy to draw no issue and no error. */
  predicate Clean(b: Block, env: Env) {
    (forall a :: a in RequiredAttrs ==> Has(b, a))
    && NameOk(b, env, "name")
    && InterfacesIssuesClean(b, env)
  }

  /** A resource draws no issue and no error exactly when it is clean. */
  lemma Passes(b: Block, env: Env)
    ensures ResourceIssues(b, env) == Pass <==> Clean(b, env)
  {
    var o0 := Ok(Missing(RuleName, b, RequiredAttrs, AttributeMustBeSpecified));
    var s1 := NameLength(RuleName, b, env, "name", NameEmpty, NameTooLong);
    ThenPass(o0, s1);
    var o1 := Then(o0, s1);
    var s2 := InterfacesIssues(b, env);
    ThenPass(o1, s2);
    MissingNone(RuleName, b, RequiredAttrs, AttributeMustBeSpecified);
    NameLengthPass(RuleName, b, env, "name", NameEmpty, NameTooLong);
    InterfacesIssuesPasses(b, env);
  }
}
