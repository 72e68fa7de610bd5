/** rules/rule_ibm_is_lb_listener.go */
module LbListener {
  import opened Wrappers
  import opened Hcl
  import opened Tflint
  import opened Checks

  const RuleName := "ibm_is_lb_listener"
  const ResourceType := "ibm_is_lb_listener"
  const RequiredAttrs := ["lb", "port", "protocol"]
  const Protocols: set<GoString> := {"http", "https", "tcp", "udp"}
  const ProtocolMsg := Text("protocol must be one of: http, https, tcp, udp")
  const PortMsg := Text("port must be between 1 and 65535")
  const CertificateMissing := Text("certificate_instance must be specified when protocol is https")

  /** The second look at `protocol`: `https` needs `certificate_instance`, reported at the protocol. */
  function HttpsIssues(b: Block, env: Env): Outcome {
    if !Has(b, "protocol") then Pass
    else
      match env.str(ExprOf(b, "protocol"))
      case Failure(e) => Fail(e)
      case Success(protocol) =>
        Ok(if protocol == "https" && !Has(b, "certificate_instance")
           then [Issue(RuleName, CertificateMissing, ExprOf(b, "protocol").range)] else [])
  }

  method CheckHttps(runner: Runner, b: Block) returns (err: Option<Error>)
    modifies runner
    ensures Produced(runner, old(runner.issues), err, HttpsIssues(b, runner.env))
  {
    err := None;
    if "protocol" in b.body.attributes {
      var x := b.body.attributes["protocol"].expr;
      var r := runner.EvaluateString(x);
      if r.Failure? {
        return Some(r.error);
      }
      if r.value == "https" && "certificate_instance" !in b.body.attributes {
        runner.EmitIssue(RuleName, CertificateMissing, x.range);
      }
    }
  }

  predicate HttpsClean(b: Block, env: Env) {
    Has(b, "protocol") ==>
      && env.str(ExprOf(b, "protocol")).Success?
      && (env.str(ExprOf(b, "protocol")).value == "https" ==> Has(b, "certificate_instance"))
  }

  lemma HttpsPasses(b: Block, env: Env)
    ensures HttpsIssues(b, env) == Pass <==> HttpsClean(b, env)
  {
  }

  /** What `Check` does with one resource block. */
  function ResourceIssues(b: Block, env: Env): Outcome {
    var o := Ok(Missing(RuleName, b, RequiredAttrs, AttributeMustBeSpecified));
    var o := Then(o, Enum(RuleName, b, env, "protocol", Protocols, ProtocolMsg));
    var o := Then(o, IntRange(RuleName, b, env, "port", 1, 65535, PortMsg));
    Then(o, HttpsIssues(b, env))
  }

  method CheckResource(runner: Runner, b: Block) returns (err: Option<Error>)
    modifies runner
    ensures Produced(runner, old(runner.issues), err, ResourceIssues(b, runner.env))
  {
    err := None;
    CheckRequired(runner, RuleName, b, RequiredAttrs, AttributeMustBeSpecified);
    ghost var done := Ok(Missing(RuleName, b, RequiredAttrs, AttributeMustBeSpecified));
    ghost var step := Enum(RuleName, b, runner.env, "protocol", Protocols, ProtocolMsg);
    err := CheckEnum(runner, RuleName, b, "protocol", Protocols, ProtocolMsg);
    Extend(old(runner.issues), done, step);
    if err.Some? {
      return;
    }
    done := Then(done, step);
    step := IntRange(RuleName, b, runner.env, "port", 1, 65535, PortMsg);
    err := CheckIntRange(runner, RuleName, b, "port", 1, 65535, PortMsg);
    Extend(old(runner.issues), done, step);
    if err.Some? {
      return;
    }
    done := Then(done, step);
    step := HttpsIssues(b, runner.env);
    err := CheckHttps(runner, b);
    Extend(old(runner.issues), done, step);
  }

  method Check(runner: Runner) returns (err: Option<Error>)
    modifies runner
    ensures Produced(runner, old(runner.issues), err, RunRule(runner.content, ResourceType, runner.env, ResourceIssues))
  {
    var resources := runner.GetResourceContent(ResourceType);
    if resources.Failure? {
      return Some(resources.error);
    }
    var blocks := resources.value;
    var i := 0;
    while i < |blocks|
      invariant 0 <= i <= |blocks|
      invariant Produced(runner, old(runner.issues), None, ForEach(blocks[..i], runner.env, ResourceIssues))
    {
      ForEachStep(blocks, i, runner.env, ResourceIssues);
      err := CheckResource(runner, blocks[i]);
      Extend(old(runner.issues), ForEach(blocks[..i], runner.env, ResourceIssues), ResourceIssues(blocks[i], runner.env));
      if err.Some? {
        ForEachStopsAtError(blocks, i + 1, runner.env, ResourceIssues);
        return;
      }
      i := i + 1;
    }
    assert blocks[..i] == blocks;
    return None;
  }

  /** What a resource must satisfy to draw no issue and no error. */
  predicate Clean(b: Block, env: Env) {
    (forall a :: a in RequiredAttrs ==> Has(b, a))
    && StrIn(b, env, "protocol", Protocols)
    && IntIn(b, env, "port", 1, 65535)
    && HttpsClean(b, env)
  }

  /** A resource draws no issue and no error exactly when it is clean. */
  lemma Passes(b: Block, env: Env)
    ensures ResourceIssues(b, env) == Pass <==> Clean(b, env)
  {
    var o0 := Ok(Missing(RuleName, b, RequiredAttrs, AttributeMustBeSpecified));
    var s1 := Enum(RuleName, b, env, "protocol", Protocols, ProtocolMsg);
    ThenPass(o0, s1);
    var o1 := Then(o0, s1);
    var s2 := IntRange(RuleName, b, env, "port", 1, 65535, PortMsg);
    ThenPass(o1, s2);
    var o2 := Then(o1, s2);
    var s3 := HttpsIssues(b, env);
    ThenPass(o2, s3);
    MissingNone(RuleName, b, RequiredAttrs, AttributeMustBeSpecified);
    EnumPass(RuleName, b, env, "protocol", Protocols, ProtocolMsg);
    IntRangePass(RuleName, b, env, "port", 1, 65535, PortMsg);
    HttpsPasses(b, env);
  }

  /** A listener over any protocol but `https` is never asked for a certificate. */
  lemma CertificateOnlyForHttps(b: Block, env: Env)
    requires Has(b, "protocol") && env.str(ExprOf(b, "protocol")).Success?
    ensures HttpsIssues(b, env).err.None?
    ensures HttpsIssues(b, env).issues != [] <==>
      env.str(ExprOf(b, "protocol")).value == "https" && !Has(b, "certificate_instance")
  {
  }

  /**
   * A `protocol` that fails to evaluate ends the check at its first
   * evaluation, so the second one is never reached.
   */
  lemma ProtocolErrorReportedOnce(b: Block, env: Env)
    requires Has(b, "protocol") && env.str(ExprOf(b, "protocol")).Failure?
    ensures ResourceIssues(b, env) == Outcome(Missing(RuleName, b, RequiredAttrs, AttributeMustBeSpecified),
                                              Some(env.str(ExprOf(b, "protocol")).error))
  {
  }
}
