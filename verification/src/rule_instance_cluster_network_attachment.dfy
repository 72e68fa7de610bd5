/** rules/rule_ibm_is_instance_cluster_network_attachment.go */
module InstanceClusterNetworkAttachment {
  import opened Wrappers
  import opened Hcl
  import opened Tflint
  import opened Checks

  const RuleName := "ibm_is_instance_cluster_network_attachment"
  const ResourceType := "ibm_is_instance_cluster_network_attachment"
  const RequiredAttrs := ["instance_id", "name"]
  const SubnetIdMissing := Text("id attribute must be specified in subnet block")
  const NoSubnet := Text("subnet block must be specified in cluster_network_interface")
  const NoInterface := Text("cluster_network_interface block must be specified")

  /** One doubly nested block: a `subnet` block needs `id`. */
  function SubnetIssues(b: Block, env: Env): Outcome {
    if b.typ != "subnet" then Pass else
    Ok(Require(RuleName, b, "id", SubnetIdMissing))
  }

  method CheckSubnet(runner: Runner, b: Block)
    modifies runner
    ensures Produced(runner, old(runner.issues), None, SubnetIssues(b, runner.env))
  {
    if b.typ != "subnet" {
      return;
    }
    CheckRequire(runner, RuleName, b, "id", SubnetIdMissing);
  }

  /** The `subnet` loop, then the test on whether such a block exists. */
  function SubnetsIssues(b: Block, env: Env): Outcome {
    Then(ForEach(b.body.blocks, env, SubnetIssues),
         Ok(if AnyOfType(b.body.blocks, "subnet") then [] else [Issue(RuleName, NoSubnet, b.defRange)]))
  }

  /** The loop over the blocks nested in `b`, acting on the `subnet` blocks. */
  method CheckSubnets(runner: Runner, b: Block)
    modifies runner
    ensures Produced(runner, old(runner.issues), None, SubnetsIssues(b, runner.env))
  {
    var blocks := b.body.blocks;
    var hasSubnet := false;
    var i := 0;
    while i < |blocks|
      invariant 0 <= i <= |blocks|
      invariant hasSubnet == AnyOfType(blocks[..i], "subnet")
      invariant Produced(runner, old(runner.issues), None, ForEach(blocks[..i], runner.env, SubnetIssues))
    {
      AnyOfTypeStep(blocks, i, "subnet");
      ForEachAppend(old(runner.issues), blocks, i, runner.env, SubnetIssues);
      var blk := blocks[i];
      if blk.typ == "subnet" {
        hasSubnet := true;
      }
      CheckSubnet(runner, blk);
      i := i + 1;
    }
    assert blocks[..i] == blocks;
    ghost var loop := ForEach(blocks, runner.env, SubnetIssues);
    if !hasSubnet {
      runner.EmitIssue(RuleName, NoSubnet, b.defRange);
    }
    Extend(old(runner.issues), loop, Ok(if AnyOfType(blocks, "subnet") then [] else [Issue(RuleName, NoSubnet, b.defRange)]));
  }

  predicate SubnetIssuesClean(b: Block, env: Env) {
    b.typ == "subnet" ==>
      Has(b, "id")
  }

  lemma SubnetIssuesPasses(b: Block, env: Env)
    ensures SubnetIssues(b, env) == Pass <==> SubnetIssuesClean(b, env)
  {
  }

  predicate SubnetsIssuesClean(b: Block, env: Env) {
    (forall i :: 0 <= i < |b.body.blocks| ==> SubnetIssuesClean(b.body.blocks[i], env))
    && AnyOfType(b.body.blocks, "subnet")
  }

  lemma SubnetsIssuesPasses(b: Block, env: Env)
    ensures SubnetsIssues(b, env) == Pass <==> SubnetsIssuesClean(b, env)
  {
    ThenPass(ForEach(b.body.blocks, env, SubnetIssues), Ok(if AnyOfType(b.body.blocks, "subnet") then [] else [Issue(RuleName, NoSubnet, b.defRange)]));
    ForEachPass(b.body.blocks, env, SubnetIssues);
    forall i | 0 <= i < |b.body.blocks| {
      SubnetIssuesPasses(b.body.blocks[i], env);
    }
  }

  /**
   * Without any `subnet` block, the `subnet` loop draws exactly one issue,
   * "subnet block must be specified in cluster_network_interface", at `b`'s range.
   */
  lemma NoSubnetReported(b: Block, env: Env)
    requires !AnyOfType(b.body.blocks, "subnet")
    ensures SubnetsIssues(b, env) == Ok([Issue(RuleName, NoSubnet, b.defRange)])
  {
    AnyOfTypeIff(b.body.blocks, "subnet");
    ForEachPass(b.body.blocks, env, SubnetIssues);
  }

  /** One nested block: a `cluster_network_interface` block needs a `subnet` block. */
  function InterfaceIssues(b: Block, env: Env): Outcome {
    if b.typ != "cluster_network_interface" then Pass else
    SubnetsIssues(b, env)
  }

  method CheckInterface(runner: Runner, b: Block)
    modifies runner
    ensures Produced(runner, old(runner.issues), None, InterfaceIssues(b, runner.env))
  {
    if b.typ != "cluster_network_interface" {
      return;
    }
    CheckSubnets(runner, b);
  }

  /** The `cluster_network_interface` loop, then the test on whether such a block exists. */
  function InterfacesIssues(b: Block, env: Env): Outcome {
    Then(ForEach(b.body.blocks, env, InterfaceIssues),
         Ok(if AnyOfType(b.body.blocks, "cluster_network_interface") then [] else [Issue(RuleName, NoInterface, b.defRange)]))
  }

  /** The loop over the blocks nested in `b`, acting on the `cluster_network_interface` blocks. */
  method CheckInterfaces(runner: Runner, b: Block)
    modifies runner
    ensures Produced(runner, old(runner.issues), None, InterfacesIssues(b, runner.env))
  {
    var blocks := b.body.blocks;
    var hasInterface := false;
    var i := 0;
    while i < |blocks|
      invariant 0 <= i <= |blocks|
      invariant hasInterface == AnyOfType(blocks[..i], "cluster_network_interface")
      invariant Produced(runner, old(runner.issues), None, ForEach(blocks[..i], runner.env, InterfaceIssues))
    {
      AnyOfTypeStep(blocks, i, "cluster_network_interface");
      ForEachAppend(old(runner.issues), blocks, i, runner.env, InterfaceIssues);
      var blk := blocks[i];
      if blk.typ == "cluster_network_interface" {
        hasInterface := true;
      }
      CheckInterface(runner, blk);
      i := i + 1;
    }
    assert blocks[..i] == blocks;
    ghost var loop := ForEach(blocks, runner.env, InterfaceIssues);
    if !hasInterface {
      runner.EmitIssue(RuleName, NoInterface, b.defRange);
    }
    Extend(old(runner.issues), loop, Ok(if AnyOfType(blocks, "cluster_network_interface") then [] else [Issue(RuleName, NoInterface, b.defRange)]));
  }

  predicate InterfaceIssuesClean(b: Block, env: Env) {
    b.typ == "cluster_network_interface" ==>
      SubnetsIssuesClean(b, env)
  }

  lemma InterfaceIssuesPasses(b: Block, env: Env)
    ensures InterfaceIssues(b, env) == Pass <==> InterfaceIssuesClean(b, env)
  {
    if b.typ == "cluster_network_interface" {
      SubnetsIssuesPasses(b, env);
    }
  }

  predicate InterfacesIssuesClean(b: Block, env: Env) {
    (forall i :: 0 <= i < |b.body.blocks| ==> InterfaceIssuesClean(b.body.blocks[i], env))
    && AnyOfType(b.body.blocks, "cluster_network_interface")
  }

  lemma InterfacesIssuesPasses(b: Block, env: Env)
    ensures InterfacesIssues(b, env) == Pass <==> InterfacesIssuesClean(b, env)
  {
    ThenPass(ForEach(b.body.blocks, env, InterfaceIssues), Ok(if AnyOfType(b.body.blocks, "cluster_network_interface") then [] else [Issue(RuleName, NoInterface, b.defRange)]));
    ForEachPass(b.body.blocks, env, InterfaceIssues);
    forall i | 0 <= i < |b.body.blocks| {
      InterfaceIssuesPasses(b.body.blocks[i], env);
    }
  }

  /**
   * Without any `cluster_network_interface` block, the `cluster_network_interface` loop draws exactly one issue,
   * "cluster_network_interface block must be specified", at `b`'s range.
   */
  lemma NoClusterNetworkInterfaceReported(b: Block, env: Env)
    requires !AnyOfType(b.body.blocks, "cluster_network_interface")
    ensures InterfacesIssues(b, env) == Ok([Issue(RuleName, NoInterface, b.defRange)])
  {
    AnyOfTypeIff(b.body.blocks, "cluster_network_interface");
    ForEachPass(b.body.blocks, env, InterfaceIssues);
  }

  /**
   * Each `cluster_network_interface` block without a `subnet` block draws
   * "subnet block must be specified in cluster_network_interface" at its own range.
   */
  lemma ClusterNetworkInterfaceWithoutSubnetReported(b: Block, env: Env, k: nat)
    requires k < |b.body.blocks| && b.body.blocks[k].typ == "cluster_network_interface"
    requires !AnyOfType(b.body.blocks[k].body.blocks, "subnet")
    ensures Issue(RuleName, NoSubnet, b.body.blocks[k].defRange) in InterfacesIssues(b, env).issues
  {
    NoSubnetReported(b.body.blocks[k], env);
    forall i | 0 <= i < |b.body.blocks|
      ensures InterfaceIssues(b.body.blocks[i], env).err.None?
    {
      ForEachNoError(b.body.blocks[i].body.blocks, env, SubnetIssues);
    }
    ForEachNoError(b.body.blocks, env, InterfaceIssues);
    ForEachIncludes(b.body.blocks, env, InterfaceIssues, k);
  }

  /** What `Check` does with one resource block. */
  function ResourceIssues(b: Block, env: Env): Outcome {
    var o := Ok(Missing(RuleName, b, RequiredAttrs, AttributeMustBeSpecified));
    var o := Then(o, NameLength(RuleName, b, env, "name", NameEmpty, NameTooLong));
    Then(o, InterfacesIssues(b, env))
  }

  method CheckResource(runner: Runner, b: Block) returns (err: Option<Error>)
    modifies runner
    ensures Produced(runner, old(runner.issues), err, ResourceIssues(b, runner.env))
  {
    err := None;
    CheckRequired(runner, RuleName, b, RequiredAttrs, AttributeMustBeSpecified);
    ghost var done := Ok(Missing(RuleName, b, RequiredAttrs, AttributeMustBeSpecified));
    ghost var step := NameLength(RuleName, b, runner.env, "name", NameEmpty, NameTooLong);
    err := CheckNameLength(runner, RuleName, b, "name", NameEmpty, NameTooLong);
    Extend(old(runner.issues), done, step);
    if err.Some? {
      return;
    }
    done := Then(done, step);
    step := InterfacesIssues(b, runner.env);
    CheckInterfaces(runner, b);
    err := None;
    Extend(old(runner.issues), done, step);
  }

  method Check(runner: Runner) returns (err: Option<Error>)
    modifies runner
    ensures Produced(runner, old(runner.issues), err, RunRule(runner.content, ResourceType, runner.env, ResourceIssues))
  {
    var resources := runner.GetResourceContent(ResourceType);
    if resources.Failure? {
      return Some(resources.error);
    }
    var blocks := resources.value;
    var i := 0;
    while i < |blocks|
      invariant 0 <= i <= |blocks|
      invariant Produced(runner, old(runner.issues), None, ForEach(blocks[..i], runner.env, ResourceIssues))
    {
      ForEachStep(blocks, i, runner.env, ResourceIssues);
      err := CheckResource(runner, blocks[i]);
      Extend(old(runner.issues), ForEach(blocks[..i], runner.env, ResourceIssues), ResourceIssues(blocks[i], runner.env));
      if err.Some? {
        ForEachStopsAtError(blocks, i + 1, runner.env, ResourceIssues);
        return;
      }
      i := i + 1;
    }
    assert blocks[..i] == blocks;
    return None;
  }

  /** What a resource must satisfy to draw no issue and no error. */
  predicate Clean(b: Block, env: Env) {
    (forall a :: a in RequiredAttrs ==> Has(b, a))
    && NameOk(b, env, "name")
    && InterfacesIssuesClean(b, env)
  }

  /** A resource draws no issue and no error exactly when it is clean. */
  lemma Passes(b: Block, env: Env)
    ensures ResourceIssues(b, env) == Pass <==> Clean(b, env)
  {
    var o0 := Ok(Missing(RuleName, b, RequiredAttrs, AttributeMustBeSpecified));
    var s1 := NameLength(RuleName, b, env, "name", NameEmpty, NameTooLong);
    ThenPass(o0, s1);
    var o1 := Then(o0, s1);
    var s2 := InterfacesIssues(b, env);
    ThenPass(o1, s2);
    MissingNone(RuleName, b, RequiredAttrs, AttributeMustBeSpecified);
    NameLengthPass(RuleName, b, env, "name", NameEmpty, NameTooLong);
    InterfacesIssuesPasses(b, env);
  }
}
