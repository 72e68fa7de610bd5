/** rules/rule_ibm_is_cluster_network_interface.go */
module ClusterNetworkInterface {
  import opened Wrappers
  import opened Hcl
  import opened Tflint
  import opened Checks

  const RuleName := "ibm_is_cluster_network_interface"
  const ResourceType := "ibm_is_cluster_network_interface"
  const RequiredAttrs := ["cluster_network_id", "name"]
  const NoPrimaryIp := Text("primary_ip block must be specified")
  const PrimaryIpId := Text("primary_ip block must contain an id attribute")
  const NoSubnet := Text("subnet block must be specified")
  const SubnetId := Text("subnet block must contain an id attribute")

  /** One nested block: a `primary_ip` block needs `id`. */
  function PrimaryIpIssues(b: Block, env: Env): Outcome {
    if b.typ != "primary_ip" then Pass else
    Ok(Require(RuleName, b, "id", PrimaryIpId))
  }

  method CheckPrimaryIp(runner: Runner, b: Block)
    modifies runner
    ensures Produced(runner, old(runner.issues), None, PrimaryIpIssues(b, runner.env))
  {
    if b.typ != "primary_ip" {
      return;
    }
    CheckRequire(runner, RuleName, b, "id", PrimaryIpId);
  }

  /** The `primary_ip` loop, then the test on whether such a block exists. */
  function PrimaryIpsIssues(b: Block, env: Env): Outcome {
    Then(ForEach(b.body.blocks, env, PrimaryIpIssues),
         Ok(if AnyOfType(b.body.blocks, "primary_ip") then [] else [Issue(RuleName, NoPrimaryIp, b.defRange)]))
  }

  /** The loop over the blocks nested in `b`, acting on the `primary_ip` blocks. */
  method CheckPrimaryIps(runner: Runner, b: Block)
    modifies runner
    ensures Produced(runner, old(runner.issues), None, PrimaryIpsIssues(b, runner.env))
  {
    var blocks := b.body.blocks;
    var hasPrimaryIp := false;
    var i := 0;
    while i < |blocks|
      invariant 0 <= i <= |blocks|
      invariant hasPrimaryIp == AnyOfType(blocks[..i], "primary_ip")
      invariant Produced(runner, old(runner.issues), None, ForEach(blocks[..i], runner.env, PrimaryIpIssues))
    {
      AnyOfTypeStep(blocks, i, "primary_ip");
      ForEachAppend(old(runner.issues), blocks, i, runner.env, PrimaryIpIssues);
      var blk := blocks[i];
      if blk.typ == "primary_ip" {
        hasPrimaryIp := true;
      }
      CheckPrimaryIp(runner, blk);
      i := i + 1;
    }
    assert blocks[..i] == blocks;
    ghost var loop := ForEach(blocks, runner.env, PrimaryIpIssues);
    if !hasPrimaryIp {
      runner.EmitIssue(RuleName, NoPrimaryIp, b.defRange);
    }
    Extend(old(runner.issues), loop, Ok(if AnyOfType(blocks, "primary_ip") then [] else [Issue(RuleName, NoPrimaryIp, b.defRange)]));
  }

  predicate PrimaryIpIssuesClean(b: Block, env: Env) {
    b.typ == "primary_ip" ==>
      Has(b, "id")
  }

  lemma PrimaryIpIssuesPasses(b: Block, env: Env)
    ensures PrimaryIpIssues(b, env) == Pass <==> PrimaryIpIssuesClean(b, env)
  {
  }

  predicate PrimaryIpsIssuesClean(b: Block, env: Env) {
    (forall i :: 0 <= i < |b.body.blocks| ==> PrimaryIpIssuesClean(b.body.blocks[i], env))
    && AnyOfType(b.body.blocks, "primary_ip")
  }

  lemma PrimaryIpsIssuesPasses(b: Block, env: Env)
    ensures PrimaryIpsIssues(b, env) == Pass <==> PrimaryIpsIssuesClean(b, env)
  {
    ThenPass(ForEach(b.body.blocks, env, PrimaryIpIssues), Ok(if AnyOfType(b.body.blocks, "primary_ip") then [] else [Issue(RuleName, NoPrimaryIp, b.defRange)]));
    ForEachPass(b.body.blocks, env, PrimaryIpIssues);
    forall i | 0 <= i < |b.body.blocks| {
      PrimaryIpIssuesPasses(b.body.blocks[i], env);
    }
  }

  /**
   * Without any `primary_ip` block, the `primary_ip` loop draws exactly one issue,
   * "primary_ip block must be specified", at `b`'s range.
   */
  lemma NoPrimaryIpReported(b: Block, env: Env)
    requires !AnyOfType(b.body.blocks, "primary_ip")
    ensures PrimaryIpsIssues(b, env) == Ok([Issue(RuleName, NoPrimaryIp, b.defRange)])
  {
    AnyOfTypeIff(b.body.blocks, "primary_ip");
    ForEachPass(b.body.blocks, env, PrimaryIpIssues);
  }

  /** One nested block: a `subnet` block needs `id`. */
  function SubnetIssues(b: Block, env: Env): Outcome {
    if b.typ != "subnet" then Pass else
    Ok(Require(RuleName, b, "id", SubnetId))
  }

  method CheckSubnet(runner: Runner, b: Block)
    modifies runner
    ensures Produced(runner, old(runner.issues), None, SubnetIssues(b, runner.env))
  {
    if b.typ != "subnet" {
      return;
    }
    CheckRequire(runner, RuleName, b, "id", SubnetId);
  }

  /** The `subnet` loop, then the test on whether such a block exists. */
  function SubnetsIssues(b: Block, env: Env): Outcome {
    Then(ForEach(b.body.blocks, env, SubnetIssues),
         Ok(if AnyOfType(b.body.blocks, "subnet") then [] else [Issue(RuleName, NoSubnet, b.defRange)]))
  }

  /** The loop over the blocks nested in `b`, acting on the `subnet` blocks. */
  method CheckSubnets(runner: Runner, b: Block)
    modifies runner
    ensures Produced(runner, old(runner.issues), None, SubnetsIssues(b, runner.env))
  {
    var blocks := b.body.blocks;
    var hasSubnet := false;
    var i := 0;
    while i < |blocks|
      invariant 0 <= i <= |blocks|
      invariant hasSubnet == AnyOfType(blocks[..i], "subnet")
      invariant Produced(runner, old(runner.issues), None, ForEach(blocks[..i], runner.env, SubnetIssues))
    {
      AnyOfTypeStep(blocks, i, "subnet");
      ForEachAppend(old(runner.issues), blocks, i, runner.env, SubnetIssues);
      var blk := blocks[i];
      if blk.typ == "subnet" {
        hasSubnet := true;
      }
      CheckSubnet(runner, blk);
      i := i + 1;
    }
    assert blocks[..i] == blocks;
    ghost var loop := ForEach(blocks, runner.env, SubnetIssues);
    if !hasSubnet {
      runner.EmitIssue(RuleName, NoSubnet, b.defRange);
    }
    Extend(old(runner.issues), loop, Ok(if AnyOfType(blocks, "subnet") then [] else [Issue(RuleName, NoSubnet, b.defRange)]));
  }

  predicate SubnetIssuesClean(b: Block, env: Env) {
    b.typ == "subnet" ==>
      Has(b, "id")
  }

  lemma SubnetIssuesPasses(b: Block, env: Env)
    ensures SubnetIssues(b, env) == Pass <==> SubnetIssuesClean(b, env)
  {
  }

  predicate SubnetsIssuesClean(b: Block, env: Env) {
    (forall i :: 0 <= i < |b.body.blocks| ==> SubnetIssuesClean(b.body.blocks[i], env))
    && AnyOfType(b.body.blocks, "subnet")
  }

  lemma SubnetsIssuesPasses(b: Block, env: Env)
    ensures SubnetsIssues(b, env) == Pass <==> SubnetsIssuesClean(b, env)
  {
    ThenPass(ForEach(b.body.blocks, env, SubnetIssues), Ok(if AnyOfType(b.body.blocks, "subnet") then [] else [Issue(RuleName, NoSubnet, b.defRange)]));
    ForEachPass(b.body.blocks, env, SubnetIssues);
    forall i | 0 <= i < |b.body.blocks| {
      SubnetIssuesPasses(b.body.blocks[i], env);
    }
  }

  /**
   * Without any `subnet` block, the `subnet` loop draws exactly one issue,
   * "subnet block must be specified", at `b`'s range.
   */
  lemma NoSubnetReported(b: Block, env: Env)
    requires !AnyOfType(b.body.blocks, "subnet")
    ensures SubnetsIssues(b, env) == Ok([Issue(RuleName, NoSubnet, b.defRange)])
  {
    AnyOfTypeIff(b.body.blocks, "subnet");
    ForEachPass(b.body.blocks, env, SubnetIssues);
  }

  /** What `Check` does with one resource block. */
  function ResourceIssues(b: Block, env: Env): Outcome {
    var o := Ok(Missing(RuleName, b, RequiredAttrs, AttributeMustBeSpecified));
    var o := Then(o, PrimaryIpsIssues(b, env));
    var o := Then(o, SubnetsIssues(b, env));
    Then(o, Valid(RuleName, b, env, "name", NonEmpty, NameEmpty))
  }

  method CheckResource(runner: Runner, b: Block) returns (err: Option<Error>)
    modifies runner
    ensures Produced(runner, old(runner.issues), err, ResourceIssues(b, runner.env))
  {
    err := None;
    CheckRequired(runner, RuleName, b, RequiredAttrs, AttributeMustBeSpecified);
    ghost var done := Ok(Missing(RuleName, b, RequiredAttrs, AttributeMustBeSpecified));
    ghost var step := PrimaryIpsIssues(b, runner.env);
    CheckPrimaryIps(runner, b);
    Extend(old(runner.issues), done, step);
    done := Then(done, step);
    step := SubnetsIssues(b, runner.env);
    CheckSubnets(runner, b);
    Extend(old(runner.issues), done, step);
    done := Then(done, step);
    step := Valid(RuleName, b, runner.env, "name", NonEmpty, NameEmpty);
    err := CheckValid(runner, RuleName, b, "name", NonEmpty, NameEmpty);
    Extend(old(runner.issues), done, step);
  }

  method Check(runner: Runner) returns (err: Option<Error>)
    modifies runner
    ensures Produced(runner, old(runner.issues), err, RunRule(runner.content, ResourceType, runner.env, ResourceIssues))
  {
    var resources := runner.GetResourceContent(ResourceType);
    if resources.Failure? {
      return Some(resources.error);
    }
    var blocks := resources.value;
    var i := 0;
    while i < |blocks|
      invariant 0 <= i <= |blocks|
      invariant Produced(runner, old(runner.issues), None, ForEach(blocks[..i], runner.env, ResourceIssues))
    {
      ForEachStep(blocks, i, runner.env, ResourceIssues);
      err := CheckResource(runner, blocks[i]);
      Extend(old(runner.issues), ForEach(blocks[..i], runner.env, ResourceIssues), ResourceIssues(blocks[i], runner.env));
      if err.Some? {
        ForEachStopsAtError(blocks, i + 1, runner.env, ResourceIssues);
        return;
      }
      i := i + 1;
    }
    assert blocks[..i] == blocks;
    return None;
  }

  /** What a resource must satisfy to draw no issue and no error. */
  predicate Clean(b: Block, env: Env) {
    (forall a :: a in RequiredAttrs ==> Has(b, a))
    && PrimaryIpsIssuesClean(b, env)
    && SubnetsIssuesClean(b, env)
    && StrIs(b, env, "name", NonEmpty)
  }

  /** A resource draws no issue and no error exactly when it is clean. */
  lemma Passes(b: Block, env: Env)
    ensures ResourceIssues(b, env) == Pass <==> Clean(b, env)
  {
    var o0 := Ok(Missing(RuleName, b, RequiredAttrs, AttributeMustBeSpecified));
    var s1 := PrimaryIpsIssues(b, env);
    ThenPass(o0, s1);
    var o1 := Then(o0, s1);
    var s2 := SubnetsIssues(b, env);
    ThenPass(o1, s2);
    var o2 := Then(o1, s2);
    var s3 := Valid(RuleName, b, env, "name", NonEmpty, NameEmpty);
    ThenPass(o2, s3);
    MissingNone(RuleName, b, RequiredAttrs, AttributeMustBeSpecified);
    PrimaryIpsIssuesPasses(b, env);
    SubnetsIssuesPasses(b, env);
    ValidPass(RuleName, b, env, "name", NonEmpty, NameEmpty);
  }
}
