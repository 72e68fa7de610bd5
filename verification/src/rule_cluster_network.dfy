/** rules/rule_ibm_is_cluster_network.go */
module ClusterNetwork {
  import opened Wrappers
  import opened Hcl
  import opened Tflint
  import opened Checks
  import opened Validators

  const RuleName := "ibm_is_cluster_network"
  const ResourceType := "ibm_is_cluster_network"
  const RequiredAttrs := ["name", "profile", "zone"]
  const Profiles: set<GoString> := {"h100"}
  const ProfileMsg := Text("invalid cluster network profile specified")
  const PrefixCidrMsg := Text("invalid CIDR format in subnet_prefixes")
  const NoSubnetPrefixes := Text("subnet_prefixes block must be specified")
  const VpcIdMissing := Text("vpc block must contain an id attribute")
  const NoVpc := Text("vpc block must be specified")

  /** One nested block: the `cidr` of a `subnet_prefixes` block must be a CIDR. */
  function PrefixIssues(b: Block, env: Env): Outcome {
    if b.typ != "subnet_prefixes" then Pass else
    Valid(RuleName, b, env, "cidr", IsValidCIDR, PrefixCidrMsg)
  }

  method CheckPrefix(runner: Runner, b: Block) returns (err: Option<Error>)
    modifies runner
    ensures Produced(runner, old(runner.issues), err, PrefixIssues(b, runner.env))
  {
    if b.typ != "subnet_prefixes" {
      return None;
    }
    err := CheckValid(runner, RuleName, b, "cidr", IsValidCIDR, PrefixCidrMsg);
  }

  /** The `subnet_prefixes` loop, then the test on whether such a block exists. */
  function PrefixesIssues(b: Block, env: Env): Outcome {
    Then(ForEach(b.body.blocks, env, PrefixIssues),
         Ok(if AnyOfType(b.body.blocks, "subnet_prefixes") then [] else [Issue(RuleName, NoSubnetPrefixes, b.defRange)]))
  }

  /** The loop over the blocks nested in `b`, acting on the `subnet_prefixes` blocks. */
  method CheckPrefixes(runner: Runner, b: Block) returns (err: Option<Error>)
    modifies runner
    ensures Produced(runner, old(runner.issues), err, PrefixesIssues(b, runner.env))
  {
    var blocks := b.body.blocks;
    var hasSubnetPrefixes := false;
    var i := 0;
    while i < |blocks|
      invariant 0 <= i <= |blocks|
      invariant hasSubnetPrefixes == AnyOfType(blocks[..i], "subnet_prefixes")
      invariant Produced(runner, old(runner.issues), None, ForEach(blocks[..i], runner.env, PrefixIssues))
    {
      AnyOfTypeStep(blocks, i, "subnet_prefixes");
      if blocks[i].typ == "subnet_prefixes" {
        hasSubnetPrefixes := true;
      }
      err := CheckPrefixesStep(runner, blocks, i, old(runner.issues));
      if err.Some? {
        ForEachStopsAtError(blocks, i + 1, runner.env, PrefixIssues);
        return;
      }
      i := i + 1;
    }
    assert blocks[..i] == blocks;
    ghost var loop := ForEach(blocks, runner.env, PrefixIssues);
    if !hasSubnetPrefixes {
      runner.EmitIssue(RuleName, NoSubnetPrefixes, b.defRange);
    }
    Extend(old(runner.issues), loop, Ok(if AnyOfType(blocks, "subnet_prefixes") then [] else [Issue(RuleName, NoSubnetPrefixes, b.defRange)]));
    return None;
  }

  /** One iteration of the `subnet_prefixes` loop. */
  method CheckPrefixesStep(runner: Runner, blocks: seq<Block>, i: nat, ghost before: seq<Issue>) returns (err: Option<Error>)
    requires i < |blocks|
    requires Produced(runner, before, None, ForEach(blocks[..i], runner.env, PrefixIssues))
    modifies runner
    ensures Produced(runner, before, err, ForEach(blocks[..i + 1], runner.env, PrefixIssues))
  {
    ForEachStep(blocks, i, runner.env, PrefixIssues);
    err := CheckPrefix(runner, blocks[i]);
    Extend(before, ForEach(blocks[..i], runner.env, PrefixIssues), PrefixIssues(blocks[i], runner.env));
  }

  predicate PrefixIssuesClean(b: Block, env: Env) {
    b.typ == "subnet_prefixes" ==>
      StrIs(b, env, "cidr", IsValidCIDR)
  }

  lemma PrefixIssuesPasses(b: Block, env: Env)
    ensures PrefixIssues(b, env) == Pass <==> PrefixIssuesClean(b, env)
  {
    if b.typ == "subnet_prefixes" {
      ValidPass(RuleName, b, env, "cidr", IsValidCIDR, PrefixCidrMsg);
    }
  }

  predicate PrefixesIssuesClean(b: Block, env: Env) {
    (forall i :: 0 <= i < |b.body.blocks| ==> PrefixIssuesClean(b.body.blocks[i], env))
    && AnyOfType(b.body.blocks, "subnet_prefixes")
  }

  lemma PrefixesIssuesPasses(b: Block, env: Env)
    ensures PrefixesIssues(b, env) == Pass <==> PrefixesIssuesClean(b, env)
  {
    ThenPass(ForEach(b.body.blocks, env, PrefixIssues), Ok(if AnyOfType(b.body.blocks, "subnet_prefixes") then [] else [Issue(RuleName, NoSubnetPrefixes, b.defRange)]));
    ForEachPass(b.body.blocks, env, PrefixIssues);
    forall i | 0 <= i < |b.body.blocks| {
      PrefixIssuesPasses(b.body.blocks[i], env);
    }
  }

  /**
   * Without any `subnet_prefixes` block, the `subnet_prefixes` loop draws exactly one issue,
   * "subnet_prefixes block must be specified", at `b`'s range.
   */
  lemma NoSubnetPrefixesReported(b: Block, env: Env)
    requires !AnyOfType(b.body.blocks, "subnet_prefixes")
    ensures PrefixesIssues(b, env) == Ok([Issue(RuleName, NoSubnetPrefixes, b.defRange)])
  {
    AnyOfTypeIff(b.body.blocks, "subnet_prefixes");
    ForEachPass(b.body.blocks, env, PrefixIssues);
  }

  /** One nested block: a `vpc` block needs `id`. */
  function VpcIssues(b: Block, env: Env): Outcome {
    if b.typ != "vpc" then Pass else
    Ok(Require(RuleName, b, "id", VpcIdMissing))
  }

  method CheckVpc(runner: Runner, b: Block)
    modifies runner
    ensures Produced(runner, old(runner.issues), None, VpcIssues(b, runner.env))
  {
    if b.typ != "vpc" {
      return;
    }
    CheckRequire(runner, RuleName, b, "id", VpcIdMissing);
  }

  /** The `vpc` loop, then the test on whether such a block exists. */
  function VpcsIssues(b: Block, env: Env): Outcome {
    Then(ForEach(b.body.blocks, env, VpcIssues),
         Ok(if AnyOfType(b.body.blocks, "vpc") then [] else [Issue(RuleName, NoVpc, b.defRange)]))
  }

  /** The loop over the blocks nested in `b`, acting on the `vpc` blocks. */
  method CheckVpcs(runner: Runner, b: Block)
    modifies runner
    ensures Produced(runner, old(runner.issues), None, VpcsIssues(b, runner.env))
  {
    var blocks := b.body.blocks;
    var hasVPC := false;
    var i := 0;
    while i < |blocks|
      invariant 0 <= i <= |blocks|
      invariant hasVPC == AnyOfType(blocks[..i], "vpc")
      invariant Produced(runner, old(runner.issues), None, ForEach(blocks[..i], runner.env, VpcIssues))
    {
      AnyOfTypeStep(blocks, i, "vpc");
      ForEachAppend(old(runner.issues), blocks, i, runner.env, VpcIssues);
      var blk := blocks[i];
      if blk.typ == "vpc" {
        hasVPC := true;
      }
      CheckVpc(runner, blk);
      i := i + 1;
    }
    assert blocks[..i] == blocks;
    ghost var loop := ForEach(blocks, runner.env, VpcIssues);
    if !hasVPC {
      runner.EmitIssue(RuleName, NoVpc, b.defRange);
    }
    Extend(old(runner.issues), loop, Ok(if AnyOfType(blocks, "vpc") then [] else [Issue(RuleName, NoVpc, b.defRange)]));
  }

  predicate VpcIssuesClean(b: Block, env: Env) {
    b.typ == "vpc" ==>
      Has(b, "id")
  }

  lemma VpcIssuesPasses(b: Block, env: Env)
    ensures VpcIssues(b, env) == Pass <==> VpcIssuesClean(b, env)
  {
  }

  predicate VpcsIssuesClean(b: Block, env: Env) {
    (forall i :: 0 <= i < |b.body.blocks| ==> VpcIssuesClean(b.body.blocks[i], env))
    && AnyOfType(b.body.blocks, "vpc")
  }

  lemma VpcsIssuesPasses(b: Block, env: Env)
    ensures VpcsIssues(b, env) == Pass <==> VpcsIssuesClean(b, env)
  {
    ThenPass(ForEach(b.body.blocks, env, VpcIssues), Ok(if AnyOfType(b.body.blocks, "vpc") then [] else [Issue(RuleName, NoVpc, b.defRange)]));
    ForEachPass(b.body.blocks, env, VpcIssues);
    forall i | 0 <= i < |b.body.blocks| {
      VpcIssuesPasses(b.body.blocks[i], env);
    }
  }

  /**
   * Without any `vpc` block, the `vpc` loop draws exactly one issue,
   * "vpc block must be specified", at `b`'s range.
   */
  lemma NoVpcReported(b: Block, env: Env)
    requires !AnyOfType(b.body.blocks, "vpc")
    ensures VpcsIssues(b, env) == Ok([Issue(RuleName, NoVpc, b.defRange)])
  {
    AnyOfTypeIff(b.body.blocks, "vpc");
    ForEachPass(b.body.blocks, env, VpcIssues);
  }

  /** What `Check` does with one resource block. */
  function ResourceIssues(b: Block, env: Env): Outcome {
    var o := Ok(Missing(RuleName, b, RequiredAttrs, AttributeMustBeSpecified));
    var o := Then(o, Enum(RuleName, b, env, "profile", Profiles, ProfileMsg));
    var o := Then(o, PrefixesIssues(b, env));
    Then(o, VpcsIssues(b, env))
  }

  method CheckResource(runner: Runner, b: Block) returns (err: Option<Error>)
    modifies runner
    ensures Produced(runner, old(runner.issues), err, ResourceIssues(b, runner.env))
  {
    err := None;
    CheckRequired(runner, RuleName, b, RequiredAttrs, AttributeMustBeSpecified);
    ghost var done := Ok(Missing(RuleName, b, RequiredAttrs, AttributeMustBeSpecified));
    ghost var step := Enum(RuleName, b, runner.env, "profile", Profiles, ProfileMsg);
    err := CheckEnum(runner, RuleName, b, "profile", Profiles, ProfileMsg);
    Extend(old(runner.issues), done, step);
    if err.Some? {
      return;
    }
    done := Then(done, step);
    step := PrefixesIssues(b, runner.env);
    err := CheckPrefixes(runner, b);
    Extend(old(runner.issues), done, step);
    if err.Some? {
      return;
    }
    done := Then(done, step);
    step := VpcsIssues(b, runner.env);
    CheckVpcs(runner, b);
    err := None;
    Extend(old(runner.issues), done, step);
  }

  method Check(runner: Runner) returns (err: Option<Error>)
    modifies runner
    ensures Produced(runner, old(runner.issues), err, RunRule(runner.content, ResourceType, runner.env, ResourceIssues))
  {
    var resources := runner.GetResourceContent(ResourceType);
    if resources.Failure? {
      return Some(resources.error);
    }
    var blocks := resources.value;
    var i := 0;
    while i < |blocks|
      invariant 0 <= i <= |blocks|
      invariant Produced(runner, old(runner.issues), None, ForEach(blocks[..i], runner.env, ResourceIssues))
    {
      ForEachStep(blocks, i, runner.env, ResourceIssues);
      err := CheckResource(runner, blocks[i]);
      Extend(old(runner.issues), ForEach(blocks[..i], runner.env, ResourceIssues), ResourceIssues(blocks[i], runner.env));
      if err.Some? {
        ForEachStopsAtError(blocks, i + 1, runner.env, ResourceIssues);
        return;
      }
      i := i + 1;
    }
    assert blocks[..i] == blocks;
    return None;
  }

  /** What a resource must satisfy to draw no issue and no error. */
  predicate Clean(b: Block, env: Env) {
    (forall a :: a in RequiredAttrs ==> Has(b, a))
    && StrIn(b, env, "profile", Profiles)
    && PrefixesIssuesClean(b, env)
    && VpcsIssuesClean(b, env)
  }

  /** A resource draws no issue and no error exactly when it is clean. */
  lemma Passes(b: Block, env: Env)
    ensures ResourceIssues(b, env) == Pass <==> Clean(b, env)
  {
    var o0 := Ok(Missing(RuleName, b, RequiredAttrs, AttributeMustBeSpecified));
    var s1 := Enum(RuleName, b, env, "profile", Profiles, ProfileMsg);
    ThenPass(o0, s1);
    var o1 := Then(o0, s1);
    var s2 := PrefixesIssues(b, env);
    ThenPass(o1, s2);
    var o2 := Then(o1, s2);
    var s3 := VpcsIssues(b, env);
    ThenPass(o2, s3);
    MissingNone(RuleName, b, RequiredAttrs, AttributeMustBeSpecified);
    EnumPass(RuleName, b, env, "profile", Profiles, ProfileMsg);
    PrefixesIssuesPasses(b, env);
    VpcsIssuesPasses(b, env);
  }
}
