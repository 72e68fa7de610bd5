/** rules/rule_ibm_is_share_mount_target.go */
module ShareMountTarget {
  import opened Wrappers
  import opened Hcl
  import opened Tflint
  import opened Checks

  const RuleName := "ibm_is_share_mount_target"
  const ResourceType := "ibm_is_share_mount_target"
  const RequiredAttrs := ["share", "name"]
  const SubnetMissing := Text("subnet must be specified in virtual_network_interface block")
  const PrimaryIpNameEmpty := Text("primary_ip name cannot be empty")
  const NoPrimaryIp := Text("primary_ip block must be specified in virtual_network_interface")
  const NoVni := Text("virtual_network_interface block must be specified")

  /** `validatePrimaryIP`: a present `name` of a `primary_ip` block must not be empty. */
  function PrimaryIpIssues(b: Block, env: Env): Outcome {
    if b.typ != "primary_ip" then Pass else
    Valid(RuleName, b, env, "name", NonEmpty, PrimaryIpNameEmpty)
  }

  method ValidatePrimaryIP(runner: Runner, b: Block) returns (err: Option<Error>)
    modifies runner
    ensures Produced(runner, old(runner.issues), err, PrimaryIpIssues(b, runner.env))
  {
    if b.typ != "primary_ip" {
      return None;
    }
    err := CheckValid(runner, RuleName, b, "name", NonEmpty, PrimaryIpNameEmpty);
  }

  /** The `primary_ip` loop, then the test on whether such a block exists. */
  function PrimaryIpsIssues(b: Block, env: Env): Outcome {
    Then(ForEach(b.body.blocks, env, PrimaryIpIssues),
         Ok(if AnyOfType(b.body.blocks, "primary_ip") then [] else [Issue(RuleName, NoPrimaryIp, b.defRange)]))
  }

  /** The loop over the blocks nested in `b`, acting on the `primary_ip` blocks. */
  method CheckPrimaryIps(runner: Runner, b: Block) returns (err: Option<Error>)
    modifies runner
    ensures Produced(runner, old(runner.issues), err, PrimaryIpsIssues(b, runner.env))
  {
    var blocks := b.body.blocks;
    var hasPrimaryIP := false;
    var i := 0;
    while i < |blocks|
      invariant 0 <= i <= |blocks|
      invariant hasPrimaryIP == AnyOfType(blocks[..i], "primary_ip")
      invariant Produced(runner, old(runner.issues), None, ForEach(blocks[..i], runner.env, PrimaryIpIssues))
    {
      AnyOfTypeStep(blocks, i, "primary_ip");
      if blocks[i].typ == "primary_ip" {
        hasPrimaryIP := true;
      }
      err := CheckPrimaryIpsStep(runner, blocks, i, old(runner.issues));
      if err.Some? {
        ForEachStopsAtError(blocks, i + 1, runner.env, PrimaryIpIssues);
        return;
      }
      i := i + 1;
    }
    assert blocks[..i] == blocks;
    ghost var loop := ForEach(blocks, runner.env, PrimaryIpIssues);
    if !hasPrimaryIP {
      runner.EmitIssue(RuleName, NoPrimaryIp, b.defRange);
    }
    Extend(old(runner.issues), loop, Ok(if AnyOfType(blocks, "primary_ip") then [] else [Issue(RuleName, NoPrimaryIp, b.defRange)]));
    return None;
  }

  /** One iteration of the `primary_ip` loop. */
  method CheckPrimaryIpsStep(runner: Runner, blocks: seq<Block>, i: nat, ghost before: seq<Issue>) returns (err: Option<Error>)
    requires i < |blocks|
    requires Produced(runner, before, None, ForEach(blocks[..i], runner.env, PrimaryIpIssues))
    modifies runner
    ensures Produced(runner, before, err, ForEach(blocks[..i + 1], runner.env, PrimaryIpIssues))
  {
    ForEachStep(blocks, i, runner.env, PrimaryIpIssues);
    err := ValidatePrimaryIP(runner, blocks[i]);
    Extend(before, ForEach(blocks[..i], runner.env, PrimaryIpIssues), PrimaryIpIssues(blocks[i], runner.env));
  }

  predicate PrimaryIpIssuesClean(b: Block, env: Env) {
    b.typ == "primary_ip" ==>
      StrIs(b, env, "name", NonEmpty)
  }

  lemma PrimaryIpIssuesPasses(b: Block, env: Env)
    ensures PrimaryIpIssues(b, env) == Pass <==> PrimaryIpIssuesClean(b, env)
  {
    if b.typ == "primary_ip" {
      ValidPass(RuleName, b, env, "name", NonEmpty, PrimaryIpNameEmpty);
    }
  }

  predicate PrimaryIpsIssuesClean(b: Block, env: Env) {
    (forall i :: 0 <= i < |b.body.blocks| ==> PrimaryIpIssuesClean(b.body.blocks[i], env))
    && AnyOfType(b.body.blocks, "primary_ip")
  }

  lemma PrimaryIpsIssuesPasses(b: Block, env: Env)
    ensures PrimaryIpsIssues(b, env) == Pass <==> PrimaryIpsIssuesClean(b, env)
  {
    ThenPass(ForEach(b.body.blocks, env, PrimaryIpIssues), Ok(if AnyOfType(b.body.blocks, "primary_ip") then [] else [Issue(RuleName, NoPrimaryIp, b.defRange)]));
    ForEachPass(b.body.blocks, env, PrimaryIpIssues);
    forall i | 0 <= i < |b.body.blocks| {
      PrimaryIpIssuesPasses(b.body.blocks[i], env);
    }
  }

  /**
   * Without any `primary_ip` block, the `primary_ip` loop draws exactly one issue,
   * "primary_ip block must be specified in virtual_network_interface", at `b`'s range.
   */
  lemma NoPrimaryIpReported(b: Block, env: Env)
    requires !AnyOfType(b.body.blocks, "primary_ip")
    ensures PrimaryIpsIssues(b, env) == Ok([Issue(RuleName, NoPrimaryIp, b.defRange)])
  {
    AnyOfTypeIff(b.body.blocks, "primary_ip");
    ForEachPass(b.body.blocks, env, PrimaryIpIssues);
  }

  /** One nested block: a `virtual_network_interface` block needs `subnet` and a `primary_ip` block. */
  function InterfaceIssues(b: Block, env: Env): Outcome {
    if b.typ != "virtual_network_interface" then Pass else
    var o := Ok(Require(RuleName, b, "subnet", SubnetMissing));
    Then(o, PrimaryIpsIssues(b, env))
  }

  method CheckInterface(runner: Runner, b: Block) returns (err: Option<Error>)
    modifies runner
    ensures Produced(runner, old(runner.issues), err, InterfaceIssues(b, runner.env))
  {
    if b.typ != "virtual_network_interface" {
      return None;
    }
    err := None;
    CheckRequire(runner, RuleName, b, "subnet", SubnetMissing);
    ghost var done := Ok(Require(RuleName, b, "subnet", SubnetMissing));
    ghost var step := PrimaryIpsIssues(b, runner.env);
    err := CheckPrimaryIps(runner, b);
    Extend(old(runner.issues), done, step);
  }

  /** The `virtual_network_interface` loop, then the test on whether such a block exists. */
  function InterfacesIssues(b: Block, env: Env): Outcome {
    Then(ForEach(b.body.blocks, env, InterfaceIssues),
         Ok(if AnyOfType(b.body.blocks, "virtual_network_interface") then [] else [Issue(RuleName, NoVni, b.defRange)]))
  }

  /** The loop over the blocks nested in `b`, acting on the `virtual_network_interface` blocks. */
  method CheckInterfaces(runner: Runner, b: Block) returns (err: Option<Error>)
    modifies runner
    ensures Produced(runner, old(runner.issues), err, InterfacesIssues(b, runner.env))
  {
    var blocks := b.body.blocks;
    var hasVNI := false;
    var i := 0;
    while i < |blocks|
      invariant 0 <= i <= |blocks|
      invariant hasVNI == AnyOfType(blocks[..i], "virtual_network_interface")
      invariant Produced(runner, old(runner.issues), None, ForEach(blocks[..i], runner.env, InterfaceIssues))
    {
      AnyOfTypeStep(blocks, i, "virtual_network_interface");
      if blocks[i].typ == "virtual_network_interface" {
        hasVNI := true;
      }
      err := CheckInterfacesStep(runner, blocks, i, old(runner.issues));
      if err.Some? {
        ForEachStopsAtError(blocks, i + 1, runner.env, InterfaceIssues);
        return;
      }
      i := i + 1;
    }
    assert blocks[..i] == blocks;
    ghost var loop := ForEach(blocks, runner.env, InterfaceIssues);
    if !hasVNI {
      runner.EmitIssue(RuleName, NoVni, b.defRange);
    }
    Extend(old(runner.issues), loop, Ok(if AnyOfType(blocks, "virtual_network_interface") then [] else [Issue(RuleName, NoVni, b.defRange)]));
    return None;
  }

  /** One iteration of the `virtual_network_interface` loop. */
  method CheckInterfacesStep(runner: Runner, blocks: seq<Block>, i: nat, ghost before: seq<Issue>) returns (err: Option<Error>)
    requires i < |blocks|
    requires Produced(runner, before, None, ForEach(blocks[..i], runner.env, InterfaceIssues))
    modifies runner
    ensures Produced(runner, before, err, ForEach(blocks[..i + 1], runner.env, InterfaceIssues))
  {
    ForEachStep(blocks, i, runner.env, InterfaceIssues);
    err := CheckInterface(runner, blocks[i]);
    Extend(before, ForEach(blocks[..i], runner.env, InterfaceIssues), InterfaceIssues(blocks[i], runner.env));
  }

  predicate InterfaceIssuesClean(b: Block, env: Env) {
    b.typ == "virtual_network_interface" ==>
      Has(b, "subnet")
      && PrimaryIpsIssuesClean(b, env)
  }

  lemma InterfaceIssuesPasses(b: Block, env: Env)
    ensures InterfaceIssues(b, env) == Pass <==> InterfaceIssuesClean(b, env)
  {
    if b.typ == "virtual_network_interface" {
      var o0 := Ok(Require(RuleName, b, "subnet", SubnetMissing));
      var s1 := PrimaryIpsIssues(b, env);
      ThenPass(o0, s1);
      PrimaryIpsIssuesPasses(b, env);
    }
  }

  predicate InterfacesIssuesClean(b: Block, env: Env) {
    (forall i :: 0 <= i < |b.body.blocks| ==> InterfaceIssuesClean(b.body.blocks[i], env))
    && AnyOfType(b.body.blocks, "virtual_network_interface")
  }

  lemma InterfacesIssuesPasses(b: Block, env: Env)
    ensures InterfacesIssues(b, env) == Pass <==> InterfacesIssuesClean(b, env)
  {
    ThenPass(ForEach(b.body.blocks, env, InterfaceIssues), Ok(if AnyOfType(b.body.blocks, "virtual_network_interface") then [] else [Issue(RuleName, NoVni, b.defRange)]));
    ForEachPass(b.body.blocks, env, InterfaceIssues);
    forall i | 0 <= i < |b.body.blocks| {
      InterfaceIssuesPasses(b.body.blocks[i], env);
    }
  }

  /**
   * Without any `virtual_network_interface` block, the `virtual_network_interface` loop draws exactly one issue,
   * "virtual_network_interface block must be specified", at `b`'s range.
   */
  lemma NoVirtualNetworkInterfaceReported(b: Block, env: Env)
    requires !AnyOfType(b.body.blocks, "virtual_network_interface")
    ensures InterfacesIssues(b, env) == Ok([Issue(RuleName, NoVni, b.defRange)])
  {
    AnyOfTypeIff(b.body.blocks, "virtual_network_interface");
    ForEachPass(b.body.blocks, env, InterfaceIssues);
  }

  /**
   * Each `virtual_network_interface` block without a `primary_ip` block draws
   * "primary_ip block must be specified in virtual_network_interface" at its own range,
   * unless some evaluation ended the loop with an error.
   */
  lemma VirtualNetworkInterfaceWithoutPrimaryIpReported(b: Block, env: Env, k: nat)
    requires k < |b.body.blocks| && b.body.blocks[k].typ == "virtual_network_interface"
    requires !AnyOfType(b.body.blocks[k].body.blocks, "primary_ip")
    requires InterfacesIssues(b, env).err.None?
    ensures Issue(RuleName, NoPrimaryIp, b.body.blocks[k].defRange) in InterfacesIssues(b, env).issues
  {
    NoPrimaryIpReported(b.body.blocks[k], env);
    ForEachIncludes(b.body.blocks, env, InterfaceIssues, k);
  }

  /** What `Check` does with one resource block. */
  function ResourceIssues(b: Block, env: Env): Outcome {
    var o := Ok(Missing(RuleName, b, RequiredAttrs, AttributeMustBeSpecified));
    var o := Then(o, NameLength(RuleName, b, env, "name", NameEmpty, NameTooLong));
    Then(o, InterfacesIssues(b, env))
  }

  method CheckResource(runner: Runner, b: Block) returns (err: Option<Error>)
    modifies runner
    ensures Produced(runner, old(runner.issues), err, ResourceIssues(b, runner.env))
  {
    err := None;
    CheckRequired(runner, RuleName, b, RequiredAttrs, AttributeMustBeSpecified);
    ghost var done := Ok(Missing(RuleName, b, RequiredAttrs, AttributeMustBeSpecified));
    ghost var step := NameLength(RuleName, b, runner.env, "name", NameEmpty, NameTooLong);
    err := CheckNameLength(runner, RuleName, b, "name", NameEmpty, NameTooLong);
    Extend(old(runner.issues), done, step);
    if err.Some? {
      return;
    }
    done := Then(done, step);
    step := InterfacesIssues(b, runner.env);
    err := CheckInterfaces(runner, b);
    Extend(old(runner.issues), done, step);
  }

  method Check(runner: Runner) returns (err: Option<Error>)
    modifies runner
    ensures Produced(runner, old(runner.issues), err, RunRule(runner.content, ResourceType, runner.env, ResourceIssues))
  {
    var resources := runner.GetResourceContent(ResourceType);
    if resources.Failure? {
      return Some(resources.error);
    }
    var blocks := resources.value;
    var i := 0;
    while i < |blocks|
      invariant 0 <= i <= |blocks|
      invariant Produced(runner, old(runner.issues), None, ForEach(blocks[..i], runner.env, ResourceIssues))
    {
      ForEachStep(blocks, i, runner.env, ResourceIssues);
      err := CheckResource(runner, blocks[i]);
      Extend(old(runner.issues), ForEach(blocks[..i], runner.env, ResourceIssues), ResourceIssues(blocks[i], runner.env));
      if err.Some? {
        ForEachStopsAtError(blocks, i + 1, runner.env, ResourceIssues);
        return;
      }
      i := i + 1;
    }
    assert blocks[..i] == blocks;
    return None;
  }

  /** What a resource must satisfy to draw no issue and no error. */
  predicate Clean(b: Block, env: Env) {
    (forall a :: a in RequiredAttrs ==> Has(b, a))
    && NameOk(b, env, "name")
    && InterfacesIssuesClean(b, env)
  }

  /** A resource draws no issue and no error exactly when it is clean. */
  lemma Passes(b: Block, env: Env)
    ensures ResourceIssues(b, env) == Pass <==> Clean(b, env)
  {
    var o0 := Ok(Missing(RuleName, b, RequiredAttrs, AttributeMustBeSpecified));
    var s1 := NameLength(RuleName, b, env, "name", NameEmpty, NameTooLong);
    ThenPass(o0, s1);
    var o1 := Then(o0, s1);
    var s2 := InterfacesIssues(b, env);
    ThenPass(o1, s2);
    MissingNone(RuleName, b, RequiredAttrs, AttributeMustBeSpecified);
    NameLengthPass(RuleName, b, env, "name", NameEmpty, NameTooLong);
    InterfacesIssuesPasses(b, env);
  }
}
