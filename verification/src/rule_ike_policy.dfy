/** rules/rule_ibm_is_ike_policy.go */
module IkePolicy {
  import opened Wrappers
  import opened Hcl
  import opened Tflint
  import opened Checks

  const RuleName := "ibm_is_ike_policy"
  const ResourceType := "ibm_is_ike_policy"
  const RequiredAttrs := ["name", "authentication_algorithm", "encryption_algorithm", "dh_group", "ike_version"]
  const AuthAlgorithms: set<GoString> := {"md5", "sha1", "sha256"}
  const AuthMsg := Text("authentication_algorithm must be one of: md5, sha1, sha256")
  const EncAlgorithms: set<GoString> := {"triple_des", "aes128", "aes192", "aes256"}
  const EncMsg := Text("encryption_algorithm must be one of: triple_des, aes128, aes192, aes256")
  const DhGroups: set<int> := {2, 5, 14, 19}
  const DhGroupMsg := Text("dh_group must be one of: 2, 5, 14, 19")
  const IkeVersions: set<int> := {1, 2}
  const IkeVersionMsg := Text("ike_version must be either 1 or 2")
  const LifetimeMsg := Text("key_lifetime must be between 300 and 86400 seconds")

  /** What `Check` does with one resource block. */
  function ResourceIssues(b: Block, env: Env): Outcome {
    var o := Ok(Missing(RuleName, b, RequiredAttrs, AttributeMustBeSpecified));
    var o := Then(o, Enum(RuleName, b, env, "authentication_algorithm", AuthAlgorithms, AuthMsg));
    var o := Then(o, Enum(RuleName, b, env, "encryption_algorithm", EncAlgorithms, EncMsg));
    var o := Then(o, IntAmong(RuleName, b, env, "dh_group", DhGroups, DhGroupMsg));
    var o := Then(o, IntAmong(RuleName, b, env, "ike_version", IkeVersions, IkeVersionMsg));
    Then(o, IntRange(RuleName, b, env, "key_lifetime", 300, 86400, LifetimeMsg))
  }

  method CheckResource(runner: Runner, b: Block) returns (err: Option<Error>)
    modifies runner
    ensures Produced(runner, old(runner.issues), err, ResourceIssues(b, runner.env))
  {
    err := None;
    CheckRequired(runner, RuleName, b, RequiredAttrs, AttributeMustBeSpecified);
    ghost var done := Ok(Missing(RuleName, b, RequiredAttrs, AttributeMustBeSpecified));
    ghost var step := Enum(RuleName, b, runner.env, "authentication_algorithm", AuthAlgorithms, AuthMsg);
    err := CheckEnum(runner, RuleName, b, "authentication_algorithm", AuthAlgorithms, AuthMsg);
    Extend(old(runner.issues), done, step);
    if err.Some? {
      return;
    }
    done := Then(done, step);
    step := Enum(RuleName, b, runner.env, "encryption_algorithm", EncAlgorithms, EncMsg);
    err := CheckEnum(runner, RuleName, b, "encryption_algorithm", EncAlgorithms, EncMsg);
    Extend(old(runner.issues), done, step);
    if err.Some? {
      return;
    }
    done := Then(done, step);
    step := IntAmong(RuleName, b, runner.env, "dh_group", DhGroups, DhGroupMsg);
    err := CheckIntAmong(runner, RuleName, b, "dh_group", DhGroups, DhGroupMsg);
    Extend(old(runner.issues), done, step);
    if err.Some? {
      return;
    }
    done := Then(done, step);
    step := IntAmong(RuleName, b, runner.env, "ike_version", IkeVersions, IkeVersionMsg);
    err := CheckIntAmong(runner, RuleName, b, "ike_version", IkeVersions, IkeVersionMsg);
    Extend(old(runner.issues), done, step);
    if err.Some? {
      return;
    }
    done := Then(done, step);
    step := IntRange(RuleName, b, runner.env, "key_lifetime", 300, 86400, LifetimeMsg);
    err := CheckIntRange(runner, RuleName, b, "key_lifetime", 300, 86400, LifetimeMsg);
    Extend(old(runner.issues), done, step);
  }

  method Check(runner: Runner) returns (err: Option<Error>)
    modifies runner
    ensures Produced(runner, old(runner.issues), err, RunRule(runner.content, ResourceType, runner.env, ResourceIssues))
  {
    var resources := runner.GetResourceContent(ResourceType);
    if resources.Failure? {
      return Some(resources.error);
    }
    var blocks := resources.value;
    var i := 0;
    while i < |blocks|
      invariant 0 <= i <= |blocks|
      invariant Produced(runner, old(runner.issues), None, ForEach(blocks[..i], runner.env, ResourceIssues))
    {
      ForEachStep(blocks, i, runner.env, ResourceIssues);
      err := CheckResource(runner, blocks[i]);
      Extend(old(runner.issues), ForEach(blocks[..i], runner.env, ResourceIssues), ResourceIssues(blocks[i], runner.env));
      if err.Some? {
        ForEachStopsAtError(blocks, i + 1, runner.env, ResourceIssues);
        return;
      }
      i := i + 1;
    }
    assert blocks[..i] == blocks;
    return None;
  }

  /** What a resource must satisfy to draw no issue and no error. */
  predicate Clean(b: Block, env: Env) {
    (forall a :: a in RequiredAttrs ==> Has(b, a))
    && StrIn(b, env, "authentication_algorithm", AuthAlgorithms)
    && StrIn(b, env, "encryption_algorithm", EncAlgorithms)
    && IntInSet(b, env, "dh_group", DhGroups)
    && IntInSet(b, env, "ike_version", IkeVersions)
    && IntIn(b, env, "key_lifetime", 300, 86400)
  }

  /** A resource draws no issue and no error exactly when it is clean. */
  lemma Passes(b: Block, env: Env)
    ensures ResourceIssues(b, env) == Pass <==> Clean(b, env)
  {
    var o0 := Ok(Missing(RuleName, b, RequiredAttrs, AttributeMustBeSpecified));
    var s1 := Enum(RuleName, b, env, "authentication_algorithm", AuthAlgorithms, AuthMsg);
    ThenPass(o0, s1);
    var o1 := Then(o0, s1);
    var s2 := Enum(RuleName, b, env, "encryption_algorithm", EncAlgorithms, EncMsg);
    ThenPass(o1, s2);
    var o2 := Then(o1, s2);
    var s3 := IntAmong(RuleName, b, env, "dh_group", DhGroups, DhGroupMsg);
    ThenPass(o2, s3);
    var o3 := Then(o2, s3);
    var s4 := IntAmong(RuleName, b, env, "ike_version", IkeVersions, IkeVersionMsg);
    ThenPass(o3, s4);
    var o4 := Then(o3, s4);
    var s5 := IntRange(RuleName, b, env, "key_lifetime", 300, 86400, LifetimeMsg);
    ThenPass(o4, s5);
    MissingNone(RuleName, b, RequiredAttrs, AttributeMustBeSpecified);
    EnumPass(RuleName, b, env, "authentication_algorithm", AuthAlgorithms, AuthMsg);
    EnumPass(RuleName, b, env, "encryption_algorithm", EncAlgorithms, EncMsg);
    IntAmongPass(RuleName, b, env, "dh_group", DhGroups, DhGroupMsg);
    IntAmongPass(RuleName, b, env, "ike_version", IkeVersions, IkeVersionMsg);
    IntRangePass(RuleName, b, env, "key_lifetime", 300, 86400, LifetimeMsg);
  }
}
