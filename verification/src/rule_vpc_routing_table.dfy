/** rules/rule_ibm_is_vpc_routing_table.go */
module VpcRoutingTable {
  import opened Wrappers
  import opened Hcl
  import opened Tflint
  import opened Checks

  const RuleName := "ibm_is_vpc_routing_table"
  const ResourceType := "ibm_is_vpc_routing_table"
  const RequiredAttrs := ["vpc", "name"]
  const RouteSourceMsg := Text("accept_routes_from_resource_type must be either 'vpn_server' or 'vpn_gateway'")

  /** The resource types routes may be accepted from. */
  predicate IsRouteSource(s: GoString) {
    s in {"vpn_server", "vpn_gateway"}
  }

  /** What `Check` does with one resource block. */
  function ResourceIssues(b: Block, env: Env): Outcome {
    var o := Ok(Missing(RuleName, b, RequiredAttrs, AttributeMustBeSpecified));
    var o := Then(o, NameLength(RuleName, b, env, "name", NameEmpty, NameTooLong));
    Then(o, Elements(RuleName, b, env, "accept_routes_from_resource_type", IsRouteSource, RouteSourceMsg))
  }

  method CheckResource(runner: Runner, b: Block) returns (err: Option<Error>)
    modifies runner
    ensures Produced(runner, old(runner.issues), err, ResourceIssues(b, runner.env))
  {
    err := None;
    CheckRequired(runner, RuleName, b, RequiredAttrs, AttributeMustBeSpecified);
    ghost var done := Ok(Missing(RuleName, b, RequiredAttrs, AttributeMustBeSpecified));
    ghost var step := NameLength(RuleName, b, runner.env, "name", NameEmpty, NameTooLong);
    err := CheckNameLength(runner, RuleName, b, "name", NameEmpty, NameTooLong);
    Extend(old(runner.issues), done, step);
    if err.Some? {
      return;
    }
    done := Then(done, step);
    step := Elements(RuleName, b, runner.env, "accept_routes_from_resource_type", IsRouteSource, RouteSourceMsg);
    err := CheckElements(runner, RuleName, b, "accept_routes_from_resource_type", IsRouteSource, RouteSourceMsg);
    Extend(old(runner.issues), done, step);
  }

  method Check(runner: Runner) returns (err: Option<Error>)
    modifies runner
    ensures Produced(runner, old(runner.issues), err, RunRule(runner.content, ResourceType, runner.env, ResourceIssues))
  {
    var resources := runner.GetResourceContent(ResourceType);
    if resources.Failure? {
      return Some(resources.error);
    }
    var blocks := resources.value;
    var i := 0;
    while i < |blocks|
      invariant 0 <= i <= |blocks|
      invariant Produced(runner, old(runner.issues), None, ForEach(blocks[..i], runner.env, ResourceIssues))
    {
      ForEachStep(blocks, i, runner.env, ResourceIssues);
      err := CheckResource(runner, blocks[i]);
      Extend(old(runner.issues), ForEach(blocks[..i], runner.env, ResourceIssues), ResourceIssues(blocks[i], runner.env));
      if err.Some? {
        ForEachStopsAtError(blocks, i + 1, runner.env, ResourceIssues);
        return;
      }
      i := i + 1;
    }
    assert blocks[..i] == blocks;
    return None;
  }

  /** What a resource must satisfy to draw no issue and no error. */
  predicate Clean(b: Block, env: Env) {
    (forall a :: a in RequiredAttrs ==> Has(b, a))
    && NameOk(b, env, "name")
    && AllElements(b, env, "accept_routes_from_resource_type", IsRouteSource)
  }

  /** A resource draws no issue and no error exactly when it is clean. */
  lemma Passes(b: Block, env: Env)
    ensures ResourceIssues(b, env) == Pass <==> Clean(b, env)
  {
    var o0 := Ok(Missing(RuleName, b, RequiredAttrs, AttributeMustBeSpecified));
    var s1 := NameLength(RuleName, b, env, "name", NameEmpty, NameTooLong);
    ThenPass(o0, s1);
    var o1 := Then(o0, s1);
    var s2 := Elements(RuleName, b, env, "accept_routes_from_resource_type", IsRouteSource, RouteSourceMsg);
    ThenPass(o1, s2);
    MissingNone(RuleName, b, RequiredAttrs, AttributeMustBeSpecified);
    NameLengthPass(RuleName, b, env, "name", NameEmpty, NameTooLong);
    ElementsPass(RuleName, b, env, "accept_routes_from_resource_type", IsRouteSource, RouteSourceMsg);
  }

  /** Each listed type other than `vpn_server` and `vpn_gateway` draws its own issue. */
  lemma RouteSourcesReported(b: Block, env: Env)
    requires Has(b, "accept_routes_from_resource_type")
    requires env.strs(ExprOf(b, "accept_routes_from_resource_type")).Success?
    ensures |Elements(RuleName, b, env, "accept_routes_from_resource_type", IsRouteSource, RouteSourceMsg).issues|
         == |Rejected(env.strs(ExprOf(b, "accept_routes_from_resource_type")).value, IsRouteSource)|
  {
    ElementIssuesCount(env.strs(ExprOf(b, "accept_routes_from_resource_type")).value, IsRouteSource,
                       Issue(RuleName, RouteSourceMsg, ExprOf(b, "accept_routes_from_resource_type").range));
  }
}
