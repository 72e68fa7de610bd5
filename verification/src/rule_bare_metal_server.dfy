/** rules/rule_ibm_is_bare_metal_server.go */
module BareMetalServer {
  import opened Wrappers
  import opened Hcl
  import opened Tflint
  import opened Checks

  const RuleName := "ibm_is_bare_metal_server"
  const ResourceType := "ibm_is_bare_metal_server"
  const RequiredAttrs := ["name", "profile", "image", "zone", "vpc", "keys"]
  const Profiles: set<GoString> := {"bx2-metal-192x768", "cx2-metal-96x384"}
  const ProfileMsg := Text("invalid bare metal server profile specified")
  const NoPrimary := Text("primary_network_interface block must be specified")
  const SubnetMissing := Text("subnet must be specified in primary_network_interface block")

  /**
   * The `primary_network_interface` loop: it stops (`break`) at the first
   * such block, which must have `subnet`; without one the resource is reported.
   */
  function PrimaryIssues(b: Block, env: Env): Outcome {
    var k := FirstOfType(b.body.blocks, "primary_network_interface");
    if k == |b.body.blocks| then Ok([Issue(RuleName, NoPrimary, b.defRange)])
    else Ok(Require(RuleName, b.body.blocks[k], "subnet", SubnetMissing))
  }

  method CheckPrimary(runner: Runner, b: Block)
    modifies runner
    ensures Produced(runner, old(runner.issues), None, PrimaryIssues(b, runner.env))
  {
    var blocks := b.body.blocks;
    var hasPrimaryInterface := false;
    var i := 0;
    while i < |blocks|
      invariant 0 <= i <= |blocks|
      invariant forall j :: 0 <= j < i ==> blocks[j].typ != "primary_network_interface"
      invariant !hasPrimaryInterface && runner.issues == old(runner.issues)
    {
      if blocks[i].typ == "primary_network_interface" {
        hasPrimaryInterface := true;
        CheckRequire(runner, RuleName, blocks[i], "subnet", SubnetMissing);
        break;
      }
      i := i + 1;
    }
    if !hasPrimaryInterface {
      runner.EmitIssue(RuleName, NoPrimary, b.defRange);
    }
  }

  predicate PrimaryClean(b: Block, env: Env) {
    var k := FirstOfType(b.body.blocks, "primary_network_interface");
    k < |b.body.blocks| && Has(b.body.blocks[k], "subnet")
  }

  lemma PrimaryPasses(b: Block, env: Env)
    ensures PrimaryIssues(b, env) == Pass <==> PrimaryClean(b, env)
  {
  }

  /** What `Check` does with one resource block. */
  function ResourceIssues(b: Block, env: Env): Outcome {
    var o := Ok(Missing(RuleName, b, RequiredAttrs, AttributeMustBeSpecified));
    var o := Then(o, Enum(RuleName, b, env, "profile", Profiles, ProfileMsg));
    Then(o, PrimaryIssues(b, env))
  }

  method CheckResource(runner: Runner, b: Block) returns (err: Option<Error>)
    modifies runner
    ensures Produced(runner, old(runner.issues), err, ResourceIssues(b, runner.env))
  {
    err := None;
    CheckRequired(runner, RuleName, b, RequiredAttrs, AttributeMustBeSpecified);
    ghost var done := Ok(Missing(RuleName, b, RequiredAttrs, AttributeMustBeSpecified));
    ghost var step := Enum(RuleName, b, runner.env, "profile", Profiles, ProfileMsg);
    err := CheckEnum(runner, RuleName, b, "profile", Profiles, ProfileMsg);
    Extend(old(runner.issues), done, step);
    if err.Some? {
      return;
    }
    done := Then(done, step);
    step := PrimaryIssues(b, runner.env);
    CheckPrimary(runner, b);
    err := None;
    Extend(old(runner.issues), done, step);
  }

  method Check(runner: Runner) returns (err: Option<Error>)
    modifies runner
    ensures Produced(runner, old(runner.issues), err, RunRule(runner.content, ResourceType, runner.env, ResourceIssues))
  {
    var resources := runner.GetResourceContent(ResourceType);
    if resources.Failure? {
      return Some(resources.error);
    }
    var blocks := resources.value;
    var i := 0;
    while i < |blocks|
      invariant 0 <= i <= |blocks|
      invariant Produced(runner, old(runner.issues), None, ForEach(blocks[..i], runner.env, ResourceIssues))
    {
      ForEachStep(blocks, i, runner.env, ResourceIssues);
      err := CheckResource(runner, blocks[i]);
      Extend(old(runner.issues), ForEach(blocks[..i], runner.env, ResourceIssues), ResourceIssues(blocks[i], runner.env));
      if err.Some? {
        ForEachStopsAtError(blocks, i + 1, runner.env, ResourceIssues);
        return;
      }
      i := i + 1;
    }
    assert blocks[..i] == blocks;
    return None;
  }

  /** What a resource must satisfy to draw no issue and no error. */
  predicate Clean(b: Block, env: Env) {
    (forall a :: a in RequiredAttrs ==> Has(b, a))
    && StrIn(b, env, "profile", Profiles)
    && PrimaryClean(b, env)
  }

  /** A resource draws no issue and no error exactly when it is clean. */
  lemma Passes(b: Block, env: Env)
    ensures ResourceIssues(b, env) == Pass <==> Clean(b, env)
  {
    var o0 := Ok(Missing(RuleName, b, RequiredAttrs, AttributeMustBeSpecified));
    var s1 := Enum(RuleName, b, env, "profile", Profiles, ProfileMsg);
    ThenPass(o0, s1);
    var o1 := Then(o0, s1);
    var s2 := PrimaryIssues(b, env);
    ThenPass(o1, s2);
    MissingNone(RuleName, b, RequiredAttrs, AttributeMustBeSpecified);
    EnumPass(RuleName, b, env, "profile", Profiles, ProfileMsg);
    PrimaryPasses(b, env);
  }

  /**
   * Only the first `primary_network_interface` block is looked at: the
   * interface check is silent exactly when such a block exists and the first
   * one has `subnet`, whatever the later ones lack.
   */
  lemma OnlyFirstInterface(b: Block, env: Env)
    ensures PrimaryIssues(b, env) == Pass <==>
      exists i :: 0 <= i < |b.body.blocks| && b.body.blocks[i].typ == "primary_network_interface"
        && Has(b.body.blocks[i], "subnet")
        && forall j :: 0 <= j < i ==> b.body.blocks[j].typ != "primary_network_interface"
  {
    var k := FirstOfType(b.body.blocks, "primary_network_interface");
    if PrimaryIssues(b, env) == Pass {
      assert k < |b.body.blocks|;
    }
  }

  /** A resource without any `primary_network_interface` block draws exactly that one interface issue. */
  lemma NoInterfaceReported(b: Block, env: Env)
    requires !HasBlock(b, "primary_network_interface")
    ensures PrimaryIssues(b, env) == Ok([Issue(RuleName, NoPrimary, b.defRange)])
  {
    FirstOfTypeFound(b.body.blocks, "primary_network_interface");
  }
}
