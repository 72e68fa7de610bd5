/** rules/rule_ibm_is_vpn_server.go */
module VpnServer {
  import opened Wrappers
  import opened Hcl
  import opened Tflint
  import opened Checks
  import opened Validators

  const RuleName := "ibm_is_vpn_server"
  const ResourceType := "ibm_is_vpn_server"
  const RequiredAttrs := ["name", "certificate_crn", "client_ip_pool", "subnets"]
  const Protocols: set<GoString> := {"udp", "tcp"}
  const ProtocolMsg := Text("protocol must be either 'udp' or 'tcp'")
  const PortMsg := Text("port must be between 1 and 65535")
  const PoolMsg := Text("client_ip_pool must be a valid CIDR")
  const DnsMsg := Text("client_dns_server_ips must contain valid IPv4 addresses")
  const NoClientAuth := Text("client_authentication block must be specified")
  const AuthAttrs := ["method"]
  const AuthTemplate := Template("`", "` attribute must be specified in client_authentication block")
  const Methods: set<GoString> := {"certificate", "username"}
  const MethodMsg := Text("method must be either 'certificate' or 'username'")
  const CaMissing := Text("client_ca_crn must be specified when method is 'certificate'")

  /** `validateClientAuthentication`: `method` is required and must be known; `certificate` needs `client_ca_crn`. */
  function AuthIssues(b: Block, env: Env): Outcome {
    if b.typ != "client_authentication" then Pass else
    var o := Ok(Missing(RuleName, b, AuthAttrs, AuthTemplate));
    Then(o, EnumNeeding(RuleName, b, env, "method", Methods, MethodMsg, "certificate", "client_ca_crn", CaMissing))
  }

  method ValidateClientAuthentication(runner: Runner, b: Block) returns (err: Option<Error>)
    modifies runner
    ensures Produced(runner, old(runner.issues), err, AuthIssues(b, runner.env))
  {
    if b.typ != "client_authentication" {
      return None;
    }
    err := None;
    CheckRequired(runner, RuleName, b, AuthAttrs, AuthTemplate);
    ghost var done := Ok(Missing(RuleName, b, AuthAttrs, AuthTemplate));
    ghost var step := EnumNeeding(RuleName, b, runner.env, "method", Methods, MethodMsg, "certificate", "client_ca_crn", CaMissing);
    err := CheckEnumNeeding(runner, RuleName, b, "method", Methods, MethodMsg, "certificate", "client_ca_crn", CaMissing);
    Extend(old(runner.issues), done, step);
  }

  /** The `client_authentication` loop, then the test on whether such a block exists. */
  function AuthsIssues(b: Block, env: Env): Outcome {
    Then(ForEach(b.body.blocks, env, AuthIssues),
         Ok(if AnyOfType(b.body.blocks, "client_authentication") then [] else [Issue(RuleName, NoClientAuth, b.defRange)]))
  }

  /** The loop over the blocks nested in `b`, acting on the `client_authentication` blocks. */
  method CheckAuths(runner: Runner, b: Block) returns (err: Option<Error>)
    modifies runner
    ensures Produced(runner, old(runner.issues), err, AuthsIssues(b, runner.env))
  {
    var blocks := b.body.blocks;
    var hasClientAuth := false;
    var i := 0;
    while i < |blocks|
      invariant 0 <= i <= |blocks|
      invariant hasClientAuth == AnyOfType(blocks[..i], "client_authentication")
      invariant Produced(runner, old(runner.issues), None, ForEach(blocks[..i], runner.env, AuthIssues))
    {
      AnyOfTypeStep(blocks, i, "client_authentication");
      if blocks[i].typ == "client_authentication" {
        hasClientAuth := true;
      }
      err := CheckAuthsStep(runner, blocks, i, old(runner.issues));
      if err.Some? {
        ForEachStopsAtError(blocks, i + 1, runner.env, AuthIssues);
        return;
      }
      i := i + 1;
    }
    assert blocks[..i] == blocks;
    ghost var loop := ForEach(blocks, runner.env, AuthIssues);
    if !hasClientAuth {
      runner.EmitIssue(RuleName, NoClientAuth, b.defRange);
    }
    Extend(old(runner.issues), loop, Ok(if AnyOfType(blocks, "client_authentication") then [] else [Issue(RuleName, NoClientAuth, b.defRange)]));
    return None;
  }

  /** One iteration of the `client_authentication` loop. */
  method CheckAuthsStep(runner: Runner, blocks: seq<Block>, i: nat, ghost before: seq<Issue>) returns (err: Option<Error>)
    requires i < |blocks|
    requires Produced(runner, before, None, ForEach(blocks[..i], runner.env, AuthIssues))
    modifies runner
    ensures Produced(runner, before, err, ForEach(blocks[..i + 1], runner.env, AuthIssues))
  {
    ForEachStep(blocks, i, runner.env, AuthIssues);
    err := ValidateClientAuthentication(runner, blocks[i]);
    Extend(before, ForEach(blocks[..i], runner.env, AuthIssues), AuthIssues(blocks[i], runner.env));
  }

  predicate AuthIssuesClean(b: Block, env: Env) {
    b.typ == "client_authentication" ==>
      (forall a :: a in AuthAttrs ==> Has(b, a))
      && StrInNeeding(b, env, "method", Methods, "certificate", "client_ca_crn")
  }

  lemma AuthIssuesPasses(b: Block, env: Env)
    ensures AuthIssues(b, env) == Pass <==> AuthIssuesClean(b, env)
  {
    if b.typ == "client_authentication" {
      var o0 := Ok(Missing(RuleName, b, AuthAttrs, AuthTemplate));
      var s1 := EnumNeeding(RuleName, b, env, "method", Methods, MethodMsg, "certificate", "client_ca_crn", CaMissing);
      ThenPass(o0, s1);
      MissingNone(RuleName, b, AuthAttrs, AuthTemplate);
      EnumNeedingPass(RuleName, b, env, "method", Methods, MethodMsg, "certificate", "client_ca_crn", CaMissing);
    }
  }

  predicate AuthsIssuesClean(b: Block, env: Env) {
    (forall i :: 0 <= i < |b.body.blocks| ==> AuthIssuesClean(b.body.blocks[i], env))
    && AnyOfType(b.body.blocks, "client_authentication")
  }

  lemma AuthsIssuesPasses(b: Block, env: Env)
    ensures AuthsIssues(b, env) == Pass <==> AuthsIssuesClean(b, env)
  {
    ThenPass(ForEach(b.body.blocks, env, AuthIssues), Ok(if AnyOfType(b.body.blocks, "client_authentication") then [] else [Issue(RuleName, NoClientAuth, b.defRange)]));
    ForEachPass(b.body.blocks, env, AuthIssues);
    forall i | 0 <= i < |b.body.blocks| {
      AuthIssuesPasses(b.body.blocks[i], env);
    }
  }

  /**
   * Without any `client_authentication` block, the `client_authentication` loop draws exactly one issue,
   * "client_authentication block must be specified", at `b`'s range.
   */
  lemma MissingAuthReportedOnce(b: Block, env: Env)
    requires !AnyOfType(b.body.blocks, "client_authentication")
    ensures AuthsIssues(b, env) == Ok([Issue(RuleName, NoClientAuth, b.defRange)])
  {
    AnyOfTypeIff(b.body.blocks, "client_authentication");
    ForEachPass(b.body.blocks, env, AuthIssues);
  }

  /** What `Check` does with one resource block. */
  function ResourceIssues(b: Block, env: Env): Outcome {
    var o := Ok(Missing(RuleName, b, RequiredAttrs, AttributeMustBeSpecified));
    var o := Then(o, AuthsIssues(b, env));
    var o := Then(o, NameLength(RuleName, b, env, "name", NameEmpty, NameTooLong));
    var o := Then(o, Enum(RuleName, b, env, "protocol", Protocols, ProtocolMsg));
    var o := Then(o, IntRange(RuleName, b, env, "port", 1, 65535, PortMsg));
    var o := Then(o, Valid(RuleName, b, env, "client_ip_pool", IsValidCIDR, PoolMsg));
    Then(o, IPv4s(RuleName, b, env, "client_dns_server_ips", DnsMsg))
  }

  method CheckResource(runner: Runner, b: Block) returns (err: Option<Error>)
    modifies runner
    ensures Produced(runner, old(runner.issues), err, ResourceIssues(b, runner.env))
  {
    err := None;
    CheckRequired(runner, RuleName, b, RequiredAttrs, AttributeMustBeSpecified);
    ghost var done := Ok(Missing(RuleName, b, RequiredAttrs, AttributeMustBeSpecified));
    ghost var step := AuthsIssues(b, runner.env);
    err := CheckAuths(runner, b);
    Extend(old(runner.issues), done, step);
    if err.Some? {
      return;
    }
    done := Then(done, step);
    step := NameLength(RuleName, b, runner.env, "name", NameEmpty, NameTooLong);
    err := CheckNameLength(runner, RuleName, b, "name", NameEmpty, NameTooLong);
    Extend(old(runner.issues), done, step);
    if err.Some? {
      return;
    }
    done := Then(done, step);
    step := Enum(RuleName, b, runner.env, "protocol", Protocols, ProtocolMsg);
    err := CheckEnum(runner, RuleName, b, "protocol", Protocols, ProtocolMsg);
    Extend(old(runner.issues), done, step);
    if err.Some? {
      return;
    }
    done := Then(done, step);
    step := IntRange(RuleName, b, runner.env, "port", 1, 65535, PortMsg);
    err := CheckIntRange(runner, RuleName, b, "port", 1, 65535, PortMsg);
    Extend(old(runner.issues), done, step);
    if err.Some? {
      return;
    }
    done := Then(done, step);
    step := Valid(RuleName, b, runner.env, "client_ip_pool", IsValidCIDR, PoolMsg);
    err := CheckValid(runner, RuleName, b, "client_ip_pool", IsValidCIDR, PoolMsg);
    Extend(old(runner.issues), done, step);
    if err.Some? {
      return;
    }
    done := Then(done, step);
    step := IPv4s(RuleName, b, runner.env, "client_dns_server_ips", DnsMsg);
    err := CheckIPv4s(runner, RuleName, b, "client_dns_server_ips", DnsMsg);
    Extend(old(runner.issues), done, step);
  }

  method Check(runner: Runner) returns (err: Option<Error>)
    modifies runner
    ensures Produced(runner, old(runner.issues), err, RunRule(runner.content, ResourceType, runner.env, ResourceIssues))
  {
    var resources := runner.GetResourceContent(ResourceType);
    if resources.Failure? {
      return Some(resources.error);
    }
    var blocks := resources.value;
    var i := 0;
    while i < |blocks|
      invariant 0 <= i <= |blocks|
      invariant Produced(runner, old(runner.issues), None, ForEach(blocks[..i], runner.env, ResourceIssues))
    {
      ForEachStep(blocks, i, runner.env, ResourceIssues);
      err := CheckResource(runner, blocks[i]);
      Extend(old(runner.issues), ForEach(blocks[..i], runner.env, ResourceIssues), ResourceIssues(blocks[i], runner.env));
      if err.Some? {
        ForEachStopsAtError(blocks, i + 1, runner.env, ResourceIssues);
        return;
      }
      i := i + 1;
    }
    assert blocks[..i] == blocks;
    return None;
  }

  /** What a resource must satisfy to draw no issue and no error. */
  predicate Clean(b: Block, env: Env) {
    (forall a :: a in RequiredAttrs ==> Has(b, a))
    && AuthsIssuesClean(b, env)
    && NameOk(b, env, "name")
    && StrIn(b, env, "protocol", Protocols)
    && IntIn(b, env, "port", 1, 65535)
    && StrIs(b, env, "client_ip_pool", IsValidCIDR)
    && AllIPv4(b, env, "client_dns_server_ips")
  }

  /** A resource draws no issue and no error exactly when it is clean. */
  lemma Passes(b: Block, env: Env)
    ensures ResourceIssues(b, env) == Pass <==> Clean(b, env)
  {
    var o0 := Ok(Missing(RuleName, b, RequiredAttrs, AttributeMustBeSpecified));
    var s1 := AuthsIssues(b, env);
    ThenPass(o0, s1);
    var o1 := Then(o0, s1);
    var s2 := NameLength(RuleName, b, env, "name", NameEmpty, NameTooLong);
    ThenPass(o1, s2);
    var o2 := Then(o1, s2);
    var s3 := Enum(RuleName, b, env, "protocol", Protocols, ProtocolMsg);
    ThenPass(o2, s3);
    var o3 := Then(o2, s3);
    var s4 := IntRange(RuleName, b, env, "port", 1, 65535, PortMsg);
    ThenPass(o3, s4);
    var o4 := Then(o3, s4);
    var s5 := Valid(RuleName, b, env, "client_ip_pool", IsValidCIDR, PoolMsg);
    ThenPass(o4, s5);
    var o5 := Then(o4, s5);
    var s6 := IPv4s(RuleName, b, env, "client_dns_server_ips", DnsMsg);
    ThenPass(o5, s6);
    MissingNone(RuleName, b, RequiredAttrs, AttributeMustBeSpecified);
    AuthsIssuesPasses(b, env);
    NameLengthPass(RuleName, b, env, "name", NameEmpty, NameTooLong);
    EnumPass(RuleName, b, env, "protocol", Protocols, ProtocolMsg);
    IntRangePass(RuleName, b, env, "port", 1, 65535, PortMsg);
    ValidPass(RuleName, b, env, "client_ip_pool", IsValidCIDR, PoolMsg);
    IPv4sPass(RuleName, b, env, "client_dns_server_ips", DnsMsg);
  }

  /**
   * The DNS server loop stops at the first address that is not IPv4: any
   * number of bad addresses draws exactly one issue, at the list's range.
   */
  lemma DnsReportedOnce(b: Block, env: Env, k: nat)
    requires Has(b, "client_dns_server_ips") && env.strs(ExprOf(b, "client_dns_server_ips")).Success?
    requires k < |env.strs(ExprOf(b, "client_dns_server_ips")).value|
    requires !IsValidIPv4(env, env.strs(ExprOf(b, "client_dns_server_ips")).value[k])
    ensures IPv4s(RuleName, b, env, "client_dns_server_ips", DnsMsg)
         == Ok([Issue(RuleName, DnsMsg, ExprOf(b, "client_dns_server_ips").range)])
  {
  }
}
