/** rules/rule_ibm_is_subnet.go */
module Subnet {
  import opened Wrappers
  import opened Hcl
  import opened Tflint
  import opened Checks
  import opened Validators

  const RuleName := "ibm_is_subnet"
  const ResourceType := "ibm_is_subnet"
  const RequiredAttrs := ["name", "vpc", "zone"]
  const CidrAndCount := Text("cannot specify both ipv4_cidr_block and total_ipv4_address_count")
  const NeitherCidrNorCount := Text("either ipv4_cidr_block or total_ipv4_address_count must be specified")
  const CidrMsg := Text("invalid CIDR block format")
  const CountMsg := Text("total_ipv4_address_count must be a power of 2 between 8 and 8192")

  /** What `Check` does with one resource block. */
  function ResourceIssues(b: Block, env: Env): Outcome {
    var o := Ok(Missing(RuleName, b, RequiredAttrs, AttributeMustBeSpecified));
    var o := Then(o, Ok(OneOf(RuleName, b, Has(b, "ipv4_cidr_block"), Has(b, "total_ipv4_address_count"), CidrAndCount, NeitherCidrNorCount)));
    var o := Then(o, NameLength(RuleName, b, env, "name", NameEmpty, NameTooLong));
    var o := Then(o, Valid(RuleName, b, env, "ipv4_cidr_block", IsValidCIDR, CidrMsg));
    var o := Then(o, IntValid(RuleName, b, env, "total_ipv4_address_count", SubnetSize, CountMsg));
    Then(o, Valid(RuleName, b, env, "zone", IsValidZone, InvalidZone))
  }

  method CheckResource(runner: Runner, b: Block) returns (err: Option<Error>)
    modifies runner
    ensures Produced(runner, old(runner.issues), err, ResourceIssues(b, runner.env))
  {
    err := None;
    CheckRequired(runner, RuleName, b, RequiredAttrs, AttributeMustBeSpecified);
    ghost var done := Ok(Missing(RuleName, b, RequiredAttrs, AttributeMustBeSpecified));
    ghost var step := Ok(OneOf(RuleName, b, Has(b, "ipv4_cidr_block"), Has(b, "total_ipv4_address_count"), CidrAndCount, NeitherCidrNorCount));
    CheckOneOf(runner, RuleName, b, "ipv4_cidr_block" in b.body.attributes, "total_ipv4_address_count" in b.body.attributes, CidrAndCount, NeitherCidrNorCount);
    Extend(old(runner.issues), done, step);
    done := Then(done, step);
    step := NameLength(RuleName, b, runner.env, "name", NameEmpty, NameTooLong);
    err := CheckNameLength(runner, RuleName, b, "name", NameEmpty, NameTooLong);
    Extend(old(runner.issues), done, step);
    if err.Some? {
      return;
    }
    done := Then(done, step);
    step := Valid(RuleName, b, runner.env, "ipv4_cidr_block", IsValidCIDR, CidrMsg);
    err := CheckValid(runner, RuleName, b, "ipv4_cidr_block", IsValidCIDR, CidrMsg);
    Extend(old(runner.issues), done, step);
    if err.Some? {
      return;
    }
    done := Then(done, step);
    step := IntValid(RuleName, b, runner.env, "total_ipv4_address_count", SubnetSize, CountMsg);
    err := CheckIntValid(runner, RuleName, b, "total_ipv4_address_count", SubnetSize, CountMsg);
    Extend(old(runner.issues), done, step);
    if err.Some? {
      return;
    }
    done := Then(done, step);
    step := Valid(RuleName, b, runner.env, "zone", IsValidZone, InvalidZone);
    err := CheckValid(runner, RuleName, b, "zone", IsValidZone, InvalidZone);
    Extend(old(runner.issues), done, step);
  }

  method Check(runner: Runner) returns (err: Option<Error>)
    modifies runner
    ensures Produced(runner, old(runner.issues), err, RunRule(runner.content, ResourceType, runner.env, ResourceIssues))
  {
    var resources := runner.GetResourceContent(ResourceType);
    if resources.Failure? {
      return Some(resources.error);
    }
    var blocks := resources.value;
    var i := 0;
    while i < |blocks|
      invariant 0 <= i <= |blocks|
      invariant Produced(runner, old(runner.issues), None, ForEach(blocks[..i], runner.env, ResourceIssues))
    {
      ForEachStep(blocks, i, runner.env, ResourceIssues);
      err := CheckResource(runner, blocks[i]);
      Extend(old(runner.issues), ForEach(blocks[..i], runner.env, ResourceIssues), ResourceIssues(blocks[i], runner.env));
      if err.Some? {
        ForEachStopsAtError(blocks, i + 1, runner.env, ResourceIssues);
        return;
      }
      i := i + 1;
    }
    assert blocks[..i] == blocks;
    return None;
  }

  /** What a resource must satisfy to draw no issue and no error. */
  predicate Clean(b: Block, env: Env) {
    (forall a :: a in RequiredAttrs ==> Has(b, a))
    && Has(b, "ipv4_cidr_block") != Has(b, "total_ipv4_address_count")
    && NameOk(b, env, "name")
    && StrIs(b, env, "ipv4_cidr_block", IsValidCIDR)
    && IntIs(b, env, "total_ipv4_address_count", SubnetSize)
    && StrIs(b, env, "zone", IsValidZone)
  }

  /** A resource draws no issue and no error exactly when it is clean. */
  lemma Passes(b: Block, env: Env)
    ensures ResourceIssues(b, env) == Pass <==> Clean(b, env)
  {
    var o0 := Ok(Missing(RuleName, b, RequiredAttrs, AttributeMustBeSpecified));
    var s1 := Ok(OneOf(RuleName, b, Has(b, "ipv4_cidr_block"), Has(b, "total_ipv4_address_count"), CidrAndCount, NeitherCidrNorCount));
    ThenPass(o0, s1);
    var o1 := Then(o0, s1);
    var s2 := NameLength(RuleName, b, env, "name", NameEmpty, NameTooLong);
    ThenPass(o1, s2);
    var o2 := Then(o1, s2);
    var s3 := Valid(RuleName, b, env, "ipv4_cidr_block", IsValidCIDR, CidrMsg);
    ThenPass(o2, s3);
    var o3 := Then(o2, s3);
    var s4 := IntValid(RuleName, b, env, "total_ipv4_address_count", SubnetSize, CountMsg);
    ThenPass(o3, s4);
    var o4 := Then(o3, s4);
    var s5 := Valid(RuleName, b, env, "zone", IsValidZone, InvalidZone);
    ThenPass(o4, s5);
    MissingNone(RuleName, b, RequiredAttrs, AttributeMustBeSpecified);
    NameLengthPass(RuleName, b, env, "name", NameEmpty, NameTooLong);
    ValidPass(RuleName, b, env, "ipv4_cidr_block", IsValidCIDR, CidrMsg);
    IntValidPass(RuleName, b, env, "total_ipv4_address_count", SubnetSize, CountMsg);
    ValidPass(RuleName, b, env, "zone", IsValidZone, InvalidZone);
  }
}
