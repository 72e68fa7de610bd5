/** rules/rule_ibm_is_bare_metal_server_network_attachment.go */
module BareMetalServerNetworkAttachment {
  import opened Wrappers
  import opened Hcl
  import opened Tflint
  import opened Checks

  const RuleName := "ibm_is_bare_metal_server_network_attachment"
  const ResourceType := "ibm_is_bare_metal_server_network_attachment"
  const RequiredAttrs := ["bare_metal_server"]
  const InterfaceTypes: set<GoString> := {"vlan", "pci"}
  const InterfaceTypeMsg := Text("interface_type must be either 'vlan' or 'pci'")
  const VlanNeeded := Text("vlan must be specified when interface_type is 'vlan'")
  const AllowedVlansNeeded := Text("allowed_vlans must be specified when interface_type is 'pci'")
  const VlanMsg := Text("vlan must be between 1 and 4094")
  const AllowedVlansMsg := Text("all VLAN values in allowed_vlans must be between 1 and 4094")

  /**
   * The `interface_type` check: a value outside the set is reported, `vlan`
   * asks for a `vlan` attribute and `pci` for `allowed_vlans`, both reported
   * at the `interface_type` expression.
   */
  function InterfaceTypeIssues(b: Block, env: Env): Outcome {
    if !Has(b, "interface_type") then Pass
    else
      match env.str(ExprOf(b, "interface_type"))
      case Failure(e) => Fail(e)
      case Success(t) =>
        var at := ExprOf(b, "interface_type").range;
        Ok((if t in InterfaceTypes then [] else [Issue(RuleName, InterfaceTypeMsg, at)])
           + if t == "vlan" && !Has(b, "vlan") then [Issue(RuleName, VlanNeeded, at)]
             else if t == "pci" && !Has(b, "allowed_vlans") then [Issue(RuleName, AllowedVlansNeeded, at)]
             else [])
  }

  method CheckInterfaceType(runner: Runner, b: Block) returns (err: Option<Error>)
    modifies runner
    ensures Produced(runner, old(runner.issues), err, InterfaceTypeIssues(b, runner.env))
  {
    err := None;
    if "interface_type" in b.body.attributes {
      var x := b.body.attributes["interface_type"].expr;
      var r := runner.EvaluateString(x);
      if r.Failure? {
        return Some(r.error);
      }
      var interfaceType := r.value;
      if interfaceType !in InterfaceTypes {
        runner.EmitIssue(RuleName, InterfaceTypeMsg, x.range);
      }
      if interfaceType == "vlan" {
        if "vlan" !in b.body.attributes {
          runner.EmitIssue(RuleName, VlanNeeded, x.range);
        }
      } else if interfaceType == "pci" {
        if "allowed_vlans" !in b.body.attributes {
          runner.EmitIssue(RuleName, AllowedVlansNeeded, x.range);
        }
      }
    }
  }

  predicate InterfaceTypeClean(b: Block, env: Env) {
    Has(b, "interface_type") ==>
      && env.str(ExprOf(b, "interface_type")).Success?
      && env.str(ExprOf(b, "interface_type")).value in InterfaceTypes
      && (env.str(ExprOf(b, "interface_type")).value == "vlan" ==> Has(b, "vlan"))
      && (env.str(ExprOf(b, "interface_type")).value == "pci" ==> Has(b, "allowed_vlans"))
  }

  lemma InterfaceTypePasses(b: Block, env: Env)
    ensures InterfaceTypeIssues(b, env) == Pass <==> InterfaceTypeClean(b, env)
  {
  }

  /** What `Check` does with one resource block. */
  function ResourceIssues(b: Block, env: Env): Outcome {
    var o := Ok(Missing(RuleName, b, RequiredAttrs, AttributeMustBeSpecified));
    var o := Then(o, InterfaceTypeIssues(b, env));
    var o := Then(o, IntRange(RuleName, b, env, "vlan", 1, 4094, VlanMsg));
    Then(o, IntsInRange(RuleName, b, env, "allowed_vlans", 1, 4094, AllowedVlansMsg))
  }

  method CheckResource(runner: Runner, b: Block) returns (err: Option<Error>)
    modifies runner
    ensures Produced(runner, old(runner.issues), err, ResourceIssues(b, runner.env))
  {
    err := None;
    CheckRequired(runner, RuleName, b, RequiredAttrs, AttributeMustBeSpecified);
    ghost var done := Ok(Missing(RuleName, b, RequiredAttrs, AttributeMustBeSpecified));
    ghost var step := InterfaceTypeIssues(b, runner.env);
    err := CheckInterfaceType(runner, b);
    Extend(old(runner.issues), done, step);
    if err.Some? {
      return;
    }
    done := Then(done, step);
    step := IntRange(RuleName, b, runner.env, "vlan", 1, 4094, VlanMsg);
    err := CheckIntRange(runner, RuleName, b, "vlan", 1, 4094, VlanMsg);
    Extend(old(runner.issues), done, step);
    if err.Some? {
      return;
    }
    done := Then(done, step);
    step := IntsInRange(RuleName, b, runner.env, "allowed_vlans", 1, 4094, AllowedVlansMsg);
    err := CheckIntsInRange(runner, RuleName, b, "allowed_vlans", 1, 4094, AllowedVlansMsg);
    Extend(old(runner.issues), done, step);
  }

  method Check(runner: Runner) returns (err: Option<Error>)
    modifies runner
    ensures Produced(runner, old(runner.issues), err, RunRule(runner.content, ResourceType, runner.env, ResourceIssues))
  {
    var resources := runner.GetResourceContent(ResourceType);
    if resources.Failure? {
      return Some(resources.error);
    }
    var blocks := resources.value;
    var i := 0;
    while i < |blocks|
      invariant 0 <= i <= |blocks|
      invariant Produced(runner, old(runner.issues), None, ForEach(blocks[..i], runner.env, ResourceIssues))
    {
      ForEachStep(blocks, i, runner.env, ResourceIssues);
      err := CheckResource(runner, blocks[i]);
      Extend(old(runner.issues), ForEach(blocks[..i], runner.env, ResourceIssues), ResourceIssues(blocks[i], runner.env));
      if err.Some? {
        ForEachStopsAtError(blocks, i + 1, runner.env, ResourceIssues);
        return;
      }
      i := i + 1;
    }
    assert blocks[..i] == blocks;
    return None;
  }

  /** What a resource must satisfy to draw no issue and no error. */
  predicate Clean(b: Block, env: Env) {
    (forall a :: a in RequiredAttrs ==> Has(b, a))
    && InterfaceTypeClean(b, env)
    && IntIn(b, env, "vlan", 1, 4094)
    && AllInRange(b, env, "allowed_vlans", 1, 4094)
  }

  /** A resource draws no issue and no error exactly when it is clean. */
  lemma Passes(b: Block, env: Env)
    ensures ResourceIssues(b, env) == Pass <==> Clean(b, env)
  {
    var o0 := Ok(Missing(RuleName, b, RequiredAttrs, AttributeMustBeSpecified));
    var s1 := InterfaceTypeIssues(b, env);
    ThenPass(o0, s1);
    var o1 := Then(o0, s1);
    var s2 := IntRange(RuleName, b, env, "vlan", 1, 4094, VlanMsg);
    ThenPass(o1, s2);
    var o2 := Then(o1, s2);
    var s3 := IntsInRange(RuleName, b, env, "allowed_vlans", 1, 4094, AllowedVlansMsg);
    ThenPass(o2, s3);
    MissingNone(RuleName, b, RequiredAttrs, AttributeMustBeSpecified);
    InterfaceTypePasses(b, env);
    IntRangePass(RuleName, b, env, "vlan", 1, 4094, VlanMsg);
    IntsInRangePass(RuleName, b, env, "allowed_vlans", 1, 4094, AllowedVlansMsg);
  }

  /**
   * An evaluated `interface_type` draws at most one issue: the value test
   * for an unknown type, else the companion attribute its type asks for.
   */
  lemma InterfaceTypeAtMostOne(b: Block, env: Env)
    requires Has(b, "interface_type") && env.str(ExprOf(b, "interface_type")).Success?
    ensures InterfaceTypeIssues(b, env).err.None?
    ensures |InterfaceTypeIssues(b, env).issues| <= 1
  {
  }

  /** However many VLANs are out of range, the loop stops at the first and reports once. */
  lemma BadVlansReportedOnce(b: Block, env: Env)
    requires Has(b, "allowed_vlans") && env.nums(ExprOf(b, "allowed_vlans")).Success?
    ensures IntsInRange(RuleName, b, env, "allowed_vlans", 1, 4094, AllowedVlansMsg)
         == Ok(if SomeOutside(env.nums(ExprOf(b, "allowed_vlans")).value, 1, 4094)
               then [Issue(RuleName, AllowedVlansMsg, ExprOf(b, "allowed_vlans").range)] else [])
  {
  }
}
