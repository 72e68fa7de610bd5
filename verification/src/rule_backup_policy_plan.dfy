/** rules/rule_ibm_is_backup_policy_plan.go */
module BackupPolicyPlan {
  import opened Wrappers
  import opened Hcl
  import opened Tflint
  import opened Checks
  import opened Validators

  const RuleName := "ibm_is_backup_policy_plan"
  const ResourceType := "ibm_is_backup_policy_plan"
  const RequiredAttrs := ["backup_policy_id", "cron_spec", "name"]
  const CronSpecMsg := Text("invalid cron_spec format")
  const ZonesEmpty := Text("zones cannot be empty in clone_policy")
  const ZoneMsg := Text("invalid zone format in clone_policy. Must be in format: region-number (e.g., us-south-1)")
  const ZonesMissing := Text("zones must be specified in clone_policy block")
  const MaxSnapshotsMsg := Text("max_snapshots must be greater than 0")
  const MaxSnapshotsMissing := Text("max_snapshots must be specified in clone_policy block")

  /**
   * The `zones` of a `clone_policy` block: required, and once evaluated an
   * empty list is reported, then every bad zone, all at the list's range.
   */
  function ZonesIssues(b: Block, env: Env): Outcome {
    if !Has(b, "zones") then Ok([Issue(RuleName, ZonesMissing, b.defRange)])
    else
      match env.strs(ExprOf(b, "zones"))
      case Failure(e) => Fail(e)
      case Success(zones) =>
        var at := ExprOf(b, "zones").range;
        Ok((if |zones| == 0 then [Issue(RuleName, ZonesEmpty, at)] else [])
           + ElementIssues(zones, IsValidZone, Issue(RuleName, ZoneMsg, at)))
  }

  method CheckZones(runner: Runner, b: Block) returns (err: Option<Error>)
    modifies runner
    ensures Produced(runner, old(runner.issues), err, ZonesIssues(b, runner.env))
  {
    err := None;
    if "zones" in b.body.attributes {
      var x := b.body.attributes["zones"].expr;
      var r := runner.EvaluateStrings(x);
      if r.Failure? {
        return Some(r.error);
      }
      var zones := r.value;
      if |zones| == 0 {
        runner.EmitIssue(RuleName, ZonesEmpty, x.range);
      }
      ghost var before := runner.issues;
      var i := 0;
      while i < |zones|
        invariant 0 <= i <= |zones|
        invariant runner.issues == before + ElementIssues(zones[..i], IsValidZone, Issue(RuleName, ZoneMsg, x.range))
      {
        assert zones[..i + 1][..i] == zones[..i];
        if !IsValidZone(zones[i]) {
          runner.EmitIssue(RuleName, ZoneMsg, x.range);
        }
        i := i + 1;
      }
      assert zones[..i] == zones;
    } else {
      runner.EmitIssue(RuleName, ZonesMissing, b.defRange);
    }
  }

  predicate ZonesClean(b: Block, env: Env) {
    && Has(b, "zones")
    && env.strs(ExprOf(b, "zones")).Success?
    && |env.strs(ExprOf(b, "zones")).value| > 0
    && forall i :: 0 <= i < |env.strs(ExprOf(b, "zones")).value| ==> IsValidZone(env.strs(ExprOf(b, "zones")).value[i])
  }

  lemma ZonesPasses(b: Block, env: Env)
    ensures ZonesIssues(b, env) == Pass <==> ZonesClean(b, env)
  {
    if Has(b, "zones") && env.strs(ExprOf(b, "zones")).Success? {
      ElementIssuesNone(env.strs(ExprOf(b, "zones")).value, IsValidZone, Issue(RuleName, ZoneMsg, ExprOf(b, "zones").range));
    }
  }

  /** One nested block: a `clone_policy` block needs good `zones` and a positive `max_snapshots`. */
  function ClonePolicyIssues(b: Block, env: Env): Outcome {
    if b.typ != "clone_policy" then Pass else
    var o := ZonesIssues(b, env);
    var o := Then(o, IntAtLeast(RuleName, b, env, "max_snapshots", 1, MaxSnapshotsMsg));
    Then(o, Ok(Require(RuleName, b, "max_snapshots", MaxSnapshotsMissing)))
  }

  method CheckClonePolicy(runner: Runner, b: Block) returns (err: Option<Error>)
    modifies runner
    ensures Produced(runner, old(runner.issues), err, ClonePolicyIssues(b, runner.env))
  {
    if b.typ != "clone_policy" {
      return None;
    }
    err := CheckZones(runner, b);
    ghost var done := ZonesIssues(b, runner.env);
    if err.Some? {
      return;
    }
    ghost var step := IntAtLeast(RuleName, b, runner.env, "max_snapshots", 1, MaxSnapshotsMsg);
    err := CheckIntAtLeast(runner, RuleName, b, "max_snapshots", 1, MaxSnapshotsMsg);
    Extend(old(runner.issues), done, step);
    if err.Some? {
      return;
    }
    done := Then(done, step);
    step := Ok(Require(RuleName, b, "max_snapshots", MaxSnapshotsMissing));
    CheckRequire(runner, RuleName, b, "max_snapshots", MaxSnapshotsMissing);
    err := None;
    Extend(old(runner.issues), done, step);
  }

  /** The `clone_policy` loop. */
  function ClonePoliciesIssues(b: Block, env: Env): Outcome {
    ForEach(b.body.blocks, env, ClonePolicyIssues)
  }

  /** The loop over the blocks nested in `b`, acting on the `clone_policy` blocks. */
  method CheckClonePolicies(runner: Runner, b: Block) returns (err: Option<Error>)
    modifies runner
    ensures Produced(runner, old(runner.issues), err, ClonePoliciesIssues(b, runner.env))
  {
    var blocks := b.body.blocks;
    var i := 0;
    while i < |blocks|
      invariant 0 <= i <= |blocks|
      invariant Produced(runner, old(runner.issues), None, ForEach(blocks[..i], runner.env, ClonePolicyIssues))
    {
      err := CheckClonePoliciesStep(runner, blocks, i, old(runner.issues));
      if err.Some? {
        ForEachStopsAtError(blocks, i + 1, runner.env, ClonePolicyIssues);
        return;
      }
      i := i + 1;
    }
    assert blocks[..i] == blocks;
    return None;
  }

  /** One iteration of the `clone_policy` loop. */
  method CheckClonePoliciesStep(runner: Runner, blocks: seq<Block>, i: nat, ghost before: seq<Issue>) returns (err: Option<Error>)
    requires i < |blocks|
    requires Produced(runner, before, None, ForEach(blocks[..i], runner.env, ClonePolicyIssues))
    modifies runner
    ensures Produced(runner, before, err, ForEach(blocks[..i + 1], runner.env, ClonePolicyIssues))
  {
    ForEachStep(blocks, i, runner.env, ClonePolicyIssues);
    err := CheckClonePolicy(runner, blocks[i]);
    Extend(before, ForEach(blocks[..i], runner.env, ClonePolicyIssues), ClonePolicyIssues(blocks[i], runner.env));
  }

  predicate ClonePolicyIssuesClean(b: Block, env: Env) {
    b.typ == "clone_policy" ==>
      ZonesClean(b, env)
      && IntFrom(b, env, "max_snapshots", 1)
      && Has(b, "max_snapshots")
  }

  lemma ClonePolicyIssuesPasses(b: Block, env: Env)
    ensures ClonePolicyIssues(b, env) == Pass <==> ClonePolicyIssuesClean(b, env)
  {
    if b.typ == "clone_policy" {
      var o0 := ZonesIssues(b, env);
      var s1 := IntAtLeast(RuleName, b, env, "max_snapshots", 1, MaxSnapshotsMsg);
      ThenPass(o0, s1);
      var o1 := Then(o0, s1);
      var s2 := Ok(Require(RuleName, b, "max_snapshots", MaxSnapshotsMissing));
      ThenPass(o1, s2);
      ZonesPasses(b, env);
      IntAtLeastPass(RuleName, b, env, "max_snapshots", 1, MaxSnapshotsMsg);
    }
  }

  predicate ClonePoliciesIssuesClean(b: Block, env: Env) {
    (forall i :: 0 <= i < |b.body.blocks| ==> ClonePolicyIssuesClean(b.body.blocks[i], env))
  }

  lemma ClonePoliciesIssuesPasses(b: Block, env: Env)
    ensures ClonePoliciesIssues(b, env) == Pass <==> ClonePoliciesIssuesClean(b, env)
  {
    ForEachPass(b.body.blocks, env, ClonePolicyIssues);
    forall i | 0 <= i < |b.body.blocks| {
      ClonePolicyIssuesPasses(b.body.blocks[i], env);
    }
  }

  /** What `Check` does with one resource block. */
  function ResourceIssues(b: Block, env: Env): Outcome {
    var o := Ok(Missing(RuleName, b, RequiredAttrs, AttributeMustBeSpecified));
    var o := Then(o, Valid(RuleName, b, env, "cron_spec", IsValidCronSpec, CronSpecMsg));
    var o := Then(o, NameLength(RuleName, b, env, "name", NameEmpty, NameTooLong));
    Then(o, ClonePoliciesIssues(b, env))
  }

  method CheckResource(runner: Runner, b: Block) returns (err: Option<Error>)
    modifies runner
    ensures Produced(runner, old(runner.issues), err, ResourceIssues(b, runner.env))
  {
    err := None;
    CheckRequired(runner, RuleName, b, RequiredAttrs, AttributeMustBeSpecified);
    ghost var done := Ok(Missing(RuleName, b, RequiredAttrs, AttributeMustBeSpecified));
    ghost var step := Valid(RuleName, b, runner.env, "cron_spec", IsValidCronSpec, CronSpecMsg);
    err := CheckValid(runner, RuleName, b, "cron_spec", IsValidCronSpec, CronSpecMsg);
    Extend(old(runner.issues), done, step);
    if err.Some? {
      return;
    }
    done := Then(done, step);
    step := NameLength(RuleName, b, runner.env, "name", NameEmpty, NameTooLong);
    err := CheckNameLength(runner, RuleName, b, "name", NameEmpty, NameTooLong);
    Extend(old(runner.issues), done, step);
    if err.Some? {
      return;
    }
    done := Then(done, step);
    step := ClonePoliciesIssues(b, runner.env);
    err := CheckClonePolicies(runner, b);
    Extend(old(runner.issues), done, step);
  }

  method Check(runner: Runner) returns (err: Option<Error>)
    modifies runner
    ensures Produced(runner, old(runner.issues), err, RunRule(runner.content, ResourceType, runner.env, ResourceIssues))
  {
    var resources := runner.GetResourceContent(ResourceType);
    if resources.Failure? {
      return Some(resources.error);
    }
    var blocks := resources.value;
    var i := 0;
    while i < |blocks|
      invariant 0 <= i <= |blocks|
      invariant Produced(runner, old(runner.issues), None, ForEach(blocks[..i], runner.env, ResourceIssues))
    {
      ForEachStep(blocks, i, runner.env, ResourceIssues);
      err := CheckResource(runner, blocks[i]);
      Extend(old(runner.issues), ForEach(blocks[..i], runner.env, ResourceIssues), ResourceIssues(blocks[i], runner.env));
      if err.Some? {
        ForEachStopsAtError(blocks, i + 1, runner.env, ResourceIssues);
        return;
      }
      i := i + 1;
    }
    assert blocks[..i] == blocks;
    return None;
  }

  /** What a resource must satisfy to draw no issue and no error. */
  predicate Clean(b: Block, env: Env) {
    (forall a :: a in RequiredAttrs ==> Has(b, a))
    && StrIs(b, env, "cron_spec", IsValidCronSpec)
    && NameOk(b, env, "name")
    && ClonePoliciesIssuesClean(b, env)
  }

  /** A resource draws no issue and no error exactly when it is clean. */
  lemma Passes(b: Block, env: Env)
    ensures ResourceIssues(b, env) == Pass <==> Clean(b, env)
  {
    var o0 := Ok(Missing(RuleName, b, RequiredAttrs, AttributeMustBeSpecified));
    var s1 := Valid(RuleName, b, env, "cron_spec", IsValidCronSpec, CronSpecMsg);
    ThenPass(o0, s1);
    var o1 := Then(o0, s1);
    var s2 := NameLength(RuleName, b, env, "name", NameEmpty, NameTooLong);
    ThenPass(o1, s2);
    var o2 := Then(o1, s2);
    var s3 := ClonePoliciesIssues(b, env);
    ThenPass(o2, s3);
    MissingNone(RuleName, b, RequiredAttrs, AttributeMustBeSpecified);
    ValidPass(RuleName, b, env, "cron_spec", IsValidCronSpec, CronSpecMsg);
    NameLengthPass(RuleName, b, env, "name", NameEmpty, NameTooLong);
    ClonePoliciesIssuesPasses(b, env);
  }

  /** An empty `zones` list draws exactly the emptiness issue: the zone loop has nothing to test. */
  lemma EmptyZonesReportedOnce(b: Block, env: Env)
    requires Has(b, "zones") && env.strs(ExprOf(b, "zones")) == Success([])
    ensures ZonesIssues(b, env) == Ok([Issue(RuleName, ZonesEmpty, ExprOf(b, "zones").range)])
  {
  }

  /** One issue per bad zone of a non-empty list. */
  lemma BadZonesCounted(b: Block, env: Env)
    requires Has(b, "zones") && env.strs(ExprOf(b, "zones")).Success? && |env.strs(ExprOf(b, "zones")).value| > 0
    ensures ZonesIssues(b, env).err.None?
    ensures |ZonesIssues(b, env).issues| == |Rejected(env.strs(ExprOf(b, "zones")).value, IsValidZone)|
  {
    ElementIssuesCount(env.strs(ExprOf(b, "zones")).value, IsValidZone, Issue(RuleName, ZoneMsg, ExprOf(b, "zones").range));
  }
}
