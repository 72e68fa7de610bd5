/** rules/rule_ibm_is_bare_metal_server_network_interface.go */
module BareMetalServerNetworkInterface {
  import opened Wrappers
  import opened Hcl
  import opened Tflint
  import opened Checks

  const RuleName := "ibm_is_bare_metal_server_network_interface"
  const ResourceType := "ibm_is_bare_metal_server_network_interface"
  const RequiredAttrs := ["bare_metal_server", "subnet", "name"]
  const VlanAndAllowedVlans := Text("cannot specify both allowed_vlans and vlan")
  const VlanMsg := Text("vlan must be between 1 and 4094")
  const AllowedVlansMsg := Text("all VLAN values must be between 1 and 4094")

  /** What `Check` does with one resource block. */
  function ResourceIssues(b: Block, env: Env): Outcome {
    var o := Ok(Missing(RuleName, b, RequiredAttrs, AttributeMustBeSpecified));
    var o := Then(o, Ok(NotBoth(RuleName, b, "allowed_vlans", "vlan", VlanAndAllowedVlans)));
    var o := Then(o, IntRange(RuleName, b, env, "vlan", 1, 4094, VlanMsg));
    var o := Then(o, IntsInRange(RuleName, b, env, "allowed_vlans", 1, 4094, AllowedVlansMsg));
    Then(o, Flag(b, env, "allow_ip_spoofing"))
  }

  method CheckResource(runner: Runner, b: Block) returns (err: Option<Error>)
    modifies runner
    ensures Produced(runner, old(runner.issues), err, ResourceIssues(b, runner.env))
  {
    err := None;
    CheckRequired(runner, RuleName, b, RequiredAttrs, AttributeMustBeSpecified);
    ghost var done := Ok(Missing(RuleName, b, RequiredAttrs, AttributeMustBeSpecified));
    ghost var step := Ok(NotBoth(RuleName, b, "allowed_vlans", "vlan", VlanAndAllowedVlans));
    CheckNotBoth(runner, RuleName, b, "allowed_vlans", "vlan", VlanAndAllowedVlans);
    Extend(old(runner.issues), done, step);
    done := Then(done, step);
    step := IntRange(RuleName, b, runner.env, "vlan", 1, 4094, VlanMsg);
    err := CheckIntRange(runner, RuleName, b, "vlan", 1, 4094, VlanMsg);
    Extend(old(runner.issues), done, step);
    if err.Some? {
      return;
    }
    done := Then(done, step);
    step := IntsInRange(RuleName, b, runner.env, "allowed_vlans", 1, 4094, AllowedVlansMsg);
    err := CheckIntsInRange(runner, RuleName, b, "allowed_vlans", 1, 4094, AllowedVlansMsg);
    Extend(old(runner.issues), done, step);
    if err.Some? {
      return;
    }
    done := Then(done, step);
    step := Flag(b, runner.env, "allow_ip_spoofing");
    err := CheckFlag(runner, b, "allow_ip_spoofing");
    FlagNeverReports(b, runner.env, "allow_ip_spoofing");
    Extend(old(runner.issues), done, step);
  }

  method Check(runner: Runner) returns (err: Option<Error>)
    modifies runner
    ensures Produced(runner, old(runner.issues), err, RunRule(runner.content, ResourceType, runner.env, ResourceIssues))
  {
    var resources := runner.GetResourceContent(ResourceType);
    if resources.Failure? {
      return Some(resources.error);
    }
    var blocks := resources.value;
    var i := 0;
    while i < |blocks|
      invariant 0 <= i <= |blocks|
      invariant Produced(runner, old(runner.issues), None, ForEach(blocks[..i], runner.env, ResourceIssues))
    {
      ForEachStep(blocks, i, runner.env, ResourceIssues);
      err := CheckResource(runner, blocks[i]);
      Extend(old(runner.issues), ForEach(blocks[..i], runner.env, ResourceIssues), ResourceIssues(blocks[i], runner.env));
      if err.Some? {
        ForEachStopsAtError(blocks, i + 1, runner.env, ResourceIssues);
        return;
      }
      i := i + 1;
    }
    assert blocks[..i] == blocks;
    return None;
  }

  /** What a resource must satisfy to draw no issue and no error. */
  predicate Clean(b: Block, env: Env) {
    (forall a :: a in RequiredAttrs ==> Has(b, a))
    && !(Has(b, "allowed_vlans") && Has(b, "vlan"))
    && IntIn(b, env, "vlan", 1, 4094)
    && AllInRange(b, env, "allowed_vlans", 1, 4094)
    && (Has(b, "allow_ip_spoofing") ==> env.flag(ExprOf(b, "allow_ip_spoofing")).Success?)
  }

  /** A resource draws no issue and no error exactly when it is clean. */
  lemma Passes(b: Block, env: Env)
    ensures ResourceIssues(b, env) == Pass <==> Clean(b, env)
  {
    var o0 := Ok(Missing(RuleName, b, RequiredAttrs, AttributeMustBeSpecified));
    var s1 := Ok(NotBoth(RuleName, b, "allowed_vlans", "vlan", VlanAndAllowedVlans));
    ThenPass(o0, s1);
    var o1 := Then(o0, s1);
    var s2 := IntRange(RuleName, b, env, "vlan", 1, 4094, VlanMsg);
    ThenPass(o1, s2);
    var o2 := Then(o1, s2);
    var s3 := IntsInRange(RuleName, b, env, "allowed_vlans", 1, 4094, AllowedVlansMsg);
    ThenPass(o2, s3);
    var o3 := Then(o2, s3);
    var s4 := Flag(b, env, "allow_ip_spoofing");
    ThenPass(o3, s4);
    MissingNone(RuleName, b, RequiredAttrs, AttributeMustBeSpecified);
    IntRangePass(RuleName, b, env, "vlan", 1, 4094, VlanMsg);
    IntsInRangePass(RuleName, b, env, "allowed_vlans", 1, 4094, AllowedVlansMsg);
    FlagPass(b, env, "allow_ip_spoofing");
  }
}
