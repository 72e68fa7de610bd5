/** rules/rule_ibm_is_lb_pool.go */
module LbPool {
  import opened Wrappers
  import opened Hcl
  import opened Tflint
  import opened Checks

  const RuleName := "ibm_is_lb_pool"
  const ResourceType := "ibm_is_lb_pool"
  const RequiredAttrs := ["name", "lb", "algorithm", "protocol"]
  const Algorithms: set<GoString> := {"round_robin", "weighted_round_robin", "least_connections"}
  const AlgorithmMsg := Text("algorithm must be one of: round_robin, weighted_round_robin, least_connections")
  const Protocols: set<GoString> := {"http", "https", "tcp", "udp"}
  const ProtocolMsg := Text("protocol must be one of: http, https, tcp, udp")
  const PersistenceTypes: set<GoString> := {"source_ip", "http_cookie", "app_cookie"}
  const PersistenceMsg := Text("session_persistence_type must be one of: source_ip, http_cookie, app_cookie")
  const CookieNameMissing := Text("session_persistence_app_cookie_name must be specified when session_persistence_type is app_cookie")
  const HealthAttrs := ["health_delay", "health_retries", "health_timeout", "health_type"]
  const HealthTemplate := Template("`", "` must be specified when configuring health check")
  const HealthTypes: set<GoString> := {"http", "https", "tcp"}
  const HealthTypeMsg := Text("health_type must be one of: http, https, tcp")
  const DelayMsg := Text("health_delay must be between 1 and 300 seconds")
  const RetriesMsg := Text("health_retries must be between 1 and 10")
  const TimeoutMsg := Text("health_timeout must be between 1 and 120 seconds")

  /** `hasHealthCheck`: some health attribute is present. */
  predicate HealthConfigured(b: Block) {
    exists a :: a in HealthAttrs && Has(b, a)
  }

  /** The three numeric health checks, each skipped when its value does not evaluate. */
  function HealthRanges(b: Block, env: Env): seq<Issue> {
    IntRangeIfEvaluates(RuleName, b, env, "health_delay", 1, 300, DelayMsg)
      + IntRangeIfEvaluates(RuleName, b, env, "health_retries", 1, 10, RetriesMsg)
      + IntRangeIfEvaluates(RuleName, b, env, "health_timeout", 1, 120, TimeoutMsg)
  }

  /** `validateHealthCheck`: nothing unless some health attribute is present. */
  function HealthIssues(b: Block, env: Env): Outcome {
    if !HealthConfigured(b) then Pass
    else
      Then(Then(Ok(Missing(RuleName, b, HealthAttrs, HealthTemplate)),
                Enum(RuleName, b, env, "health_type", HealthTypes, HealthTypeMsg)),
           Ok(HealthRanges(b, env)))
  }

  /** The `hasHealthCheck` loop, which stops at the first present attribute. */
  method HasHealthCheck(b: Block) returns (has: bool)
    ensures has == HealthConfigured(b)
  {
    has := false;
    var i := 0;
    while i < |HealthAttrs|
      invariant 0 <= i <= |HealthAttrs|
      invariant forall j :: 0 <= j < i ==> !Has(b, HealthAttrs[j])
    {
      if HealthAttrs[i] in b.body.attributes {
        has := true;
        break;
      }
      i := i + 1;
    }
  }

  method CheckHealthRanges(runner: Runner, b: Block)
    modifies runner
    ensures runner.issues == old(runner.issues) + HealthRanges(b, runner.env)
  {
    CheckIntRangeIfEvaluates(runner, RuleName, b, "health_delay", 1, 300, DelayMsg);
    CheckIntRangeIfEvaluates(runner, RuleName, b, "health_retries", 1, 10, RetriesMsg);
    CheckIntRangeIfEvaluates(runner, RuleName, b, "health_timeout", 1, 120, TimeoutMsg);
  }

  method ValidateHealthCheck(runner: Runner, b: Block) returns (err: Option<Error>)
    modifies runner
    ensures Produced(runner, old(runner.issues), err, HealthIssues(b, runner.env))
  {
    err := None;
    var hasHealthCheck := HasHealthCheck(b);
    if !hasHealthCheck {
      return;
    }
    CheckRequired(runner, RuleName, b, HealthAttrs, HealthTemplate);
    ghost var done := Ok(Missing(RuleName, b, HealthAttrs, HealthTemplate));
    ghost var step := Enum(RuleName, b, runner.env, "health_type", HealthTypes, HealthTypeMsg);
    err := CheckEnum(runner, RuleName, b, "health_type", HealthTypes, HealthTypeMsg);
    Extend(old(runner.issues), done, step);
    if err.Some? {
      return;
    }
    done := Then(done, step);
    CheckHealthRanges(runner, b);
    Extend(old(runner.issues), done, Ok(HealthRanges(b, runner.env)));
  }

  /** A configured health check names all four attributes, a known type and in-range numbers. */
  predicate HealthClean(b: Block, env: Env) {
    HealthConfigured(b) ==>
      && (forall a :: a in HealthAttrs ==> Has(b, a))
      && StrIn(b, env, "health_type", HealthTypes)
      && IntInIfEvaluates(b, env, "health_delay", 1, 300)
      && IntInIfEvaluates(b, env, "health_retries", 1, 10)
      && IntInIfEvaluates(b, env, "health_timeout", 1, 120)
  }

  lemma HealthPasses(b: Block, env: Env)
    ensures HealthIssues(b, env) == Pass <==> HealthClean(b, env)
  {
    var missing := Ok(Missing(RuleName, b, HealthAttrs, HealthTemplate));
    var typ := Enum(RuleName, b, env, "health_type", HealthTypes, HealthTypeMsg);
    ThenPass(missing, typ);
    ThenPass(Then(missing, typ), Ok(HealthRanges(b, env)));
    MissingNone(RuleName, b, HealthAttrs, HealthTemplate);
    EnumPass(RuleName, b, env, "health_type", HealthTypes, HealthTypeMsg);
    IntRangeIfEvaluatesIff(RuleName, b, env, "health_delay", 1, 300, DelayMsg);
    IntRangeIfEvaluatesIff(RuleName, b, env, "health_retries", 1, 10, RetriesMsg);
    IntRangeIfEvaluatesIff(RuleName, b, env, "health_timeout", 1, 120, TimeoutMsg);
  }

  /** What `Check` does with one resource block. */
  function ResourceIssues(b: Block, env: Env): Outcome {
    var o := Ok(Missing(RuleName, b, RequiredAttrs, AttributeMustBeSpecified));
    var o := Then(o, Enum(RuleName, b, env, "algorithm", Algorithms, AlgorithmMsg));
    var o := Then(o, Enum(RuleName, b, env, "protocol", Protocols, ProtocolMsg));
    var o := Then(o, EnumNeeding(RuleName, b, env, "session_persistence_type", PersistenceTypes, PersistenceMsg, "app_cookie", "session_persistence_app_cookie_name", CookieNameMissing));
    Then(o, HealthIssues(b, env))
  }

  method CheckResource(runner: Runner, b: Block) returns (err: Option<Error>)
    modifies runner
    ensures Produced(runner, old(runner.issues), err, ResourceIssues(b, runner.env))
  {
    err := None;
    CheckRequired(runner, RuleName, b, RequiredAttrs, AttributeMustBeSpecified);
    ghost var done := Ok(Missing(RuleName, b, RequiredAttrs, AttributeMustBeSpecified));
    ghost var step := Enum(RuleName, b, runner.env, "algorithm", Algorithms, AlgorithmMsg);
    err := CheckEnum(runner, RuleName, b, "algorithm", Algorithms, AlgorithmMsg);
    Extend(old(runner.issues), done, step);
    if err.Some? {
      return;
    }
    done := Then(done, step);
    step := Enum(RuleName, b, runner.env, "protocol", Protocols, ProtocolMsg);
    err := CheckEnum(runner, RuleName, b, "protocol", Protocols, ProtocolMsg);
    Extend(old(runner.issues), done, step);
    if err.Some? {
      return;
    }
    done := Then(done, step);
    step := EnumNeeding(RuleName, b, runner.env, "session_persistence_type", PersistenceTypes, PersistenceMsg, "app_cookie", "session_persistence_app_cookie_name", CookieNameMissing);
    err := CheckEnumNeeding(runner, RuleName, b, "session_persistence_type", PersistenceTypes, PersistenceMsg, "app_cookie", "session_persistence_app_cookie_name", CookieNameMissing);
    Extend(old(runner.issues), done, step);
    if err.Some? {
      return;
    }
    done := Then(done, step);
    step := HealthIssues(b, runner.env);
    err := ValidateHealthCheck(runner, b);
    Extend(old(runner.issues), done, step);
  }

  method Check(runner: Runner) returns (err: Option<Error>)
    modifies runner
    ensures Produced(runner, old(runner.issues), err, RunRule(runner.content, ResourceType, runner.env, ResourceIssues))
  {
    var resources := runner.GetResourceContent(ResourceType);
    if resources.Failure? {
      return Some(resources.error);
    }
    var blocks := resources.value;
    var i := 0;
    while i < |blocks|
      invariant 0 <= i <= |blocks|
      invariant Produced(runner, old(runner.issues), None, ForEach(blocks[..i], runner.env, ResourceIssues))
    {
      ForEachStep(blocks, i, runner.env, ResourceIssues);
      err := CheckResource(runner, blocks[i]);
      Extend(old(runner.issues), ForEach(blocks[..i], runner.env, ResourceIssues), ResourceIssues(blocks[i], runner.env));
      if err.Some? {
        ForEachStopsAtError(blocks, i + 1, runner.env, ResourceIssues);
        return;
      }
      i := i + 1;
    }
    assert blocks[..i] == blocks;
    return None;
  }

  /** What a resource must satisfy to draw no issue and no error. */
  predicate Clean(b: Block, env: Env) {
    (forall a :: a in RequiredAttrs ==> Has(b, a))
    && StrIn(b, env, "algorithm", Algorithms)
    && StrIn(b, env, "protocol", Protocols)
    && StrInNeeding(b, env, "session_persistence_type", PersistenceTypes, "app_cookie", "session_persistence_app_cookie_name")
    && HealthClean(b, env)
  }

  /** A resource draws no issue and no error exactly when it is clean. */
  lemma Passes(b: Block, env: Env)
    ensures ResourceIssues(b, env) == Pass <==> Clean(b, env)
  {
    var o0 := Ok(Missing(RuleName, b, RequiredAttrs, AttributeMustBeSpecified));
    var s1 := Enum(RuleName, b, env, "algorithm", Algorithms, AlgorithmMsg);
    ThenPass(o0, s1);
    var o1 := Then(o0, s1);
    var s2 := Enum(RuleName, b, env, "protocol", Protocols, ProtocolMsg);
    ThenPass(o1, s2);
    var o2 := Then(o1, s2);
    var s3 := EnumNeeding(RuleName, b, env, "session_persistence_type", PersistenceTypes, PersistenceMsg, "app_cookie", "session_persistence_app_cookie_name", CookieNameMissing);
    ThenPass(o2, s3);
    var o3 := Then(o2, s3);
    var s4 := HealthIssues(b, env);
    ThenPass(o3, s4);
    MissingNone(RuleName, b, RequiredAttrs, AttributeMustBeSpecified);
    EnumPass(RuleName, b, env, "algorithm", Algorithms, AlgorithmMsg);
    EnumPass(RuleName, b, env, "protocol", Protocols, ProtocolMsg);
    EnumNeedingPass(RuleName, b, env, "session_persistence_type", PersistenceTypes, PersistenceMsg, "app_cookie", "session_persistence_app_cookie_name", CookieNameMissing);
    HealthPasses(b, env);
  }

  /**
   * Once any health attribute is present, each of the four that is absent
   * draws exactly one issue at the resource; with none present the health
   * check reports nothing at all.
   */
  lemma HealthMissingReported(b: Block, env: Env, a: string)
    ensures !HealthConfigured(b) ==> HealthIssues(b, env) == Pass
    ensures HealthConfigured(b) ==>
      multiset(HealthIssues(b, env).issues)[Issue(RuleName, Fill(HealthTemplate, a), b.defRange)]
      == if a in HealthAttrs && !Has(b, a) then 1 else 0
  {
    if HealthConfigured(b) {
      var x := Issue(RuleName, Fill(HealthTemplate, a), b.defRange);
      var missing := Missing(RuleName, b, HealthAttrs, HealthTemplate);
      var typ := Enum(RuleName, b, env, "health_type", HealthTypes, HealthTypeMsg);
      var rest := if typ.err.None? then typ.issues + HealthRanges(b, env) else [];
      MissingHealthOnce(b, a);
      HealthIssuesShape(b, env);
      if typ.err.None? {
        HealthAfterMissingAvoids(b, env, x);
      }
      assert multiset(missing + rest) == multiset(missing) + multiset(rest);
    }
  }

  /** Each absent health attribute is named once by the required-attribute loop. */
  lemma MissingHealthOnce(b: Block, a: string)
    ensures multiset(Missing(RuleName, b, HealthAttrs, HealthTemplate))[Issue(RuleName, Fill(HealthTemplate, a), b.defRange)]
      == if a in HealthAttrs && !Has(b, a) then 1 else 0
  {
    assert Distinct(HealthAttrs);
    MissingOncePerAbsent(RuleName, b, HealthAttrs, HealthTemplate, a, b.defRange);
  }

  /** A configured health check reports the missing attributes first, then the type and the ranges. */
  lemma HealthIssuesShape(b: Block, env: Env)
    requires HealthConfigured(b)
    ensures var typ := Enum(RuleName, b, env, "health_type", HealthTypes, HealthTypeMsg);
      HealthIssues(b, env).issues
      == Missing(RuleName, b, HealthAttrs, HealthTemplate) + (if typ.err.None? then typ.issues + HealthRanges(b, env) else [])
  {
  }

  /** The type and range checks never report a missing-attribute message. */
  lemma HealthAfterMissingAvoids(b: Block, env: Env, x: Issue)
    requires x.message.Format?
    ensures multiset(Enum(RuleName, b, env, "health_type", HealthTypes, HealthTypeMsg).issues + HealthRanges(b, env))[x] == 0
  {
    var typ := Enum(RuleName, b, env, "health_type", HealthTypes, HealthTypeMsg);
    assert x !in typ.issues;
    assert x !in HealthRanges(b, env);
  }

  /**
   * A present `health_type` is only checked once the health check is
   * configured, which its own presence ensures: an unknown type is always
   * reported, once, at its range.
   */
  lemma UnknownHealthTypeReported(b: Block, env: Env)
    requires Has(b, "health_type") && env.str(ExprOf(b, "health_type")).Success?
    requires env.str(ExprOf(b, "health_type")).value !in HealthTypes
    ensures HealthIssues(b, env).err.None?
    ensures Issue(RuleName, HealthTypeMsg, ExprOf(b, "health_type").range) in HealthIssues(b, env).issues
  {
    assert "health_type" in HealthAttrs;
  }
}
