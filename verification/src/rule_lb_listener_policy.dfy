/** rules/rule_ibm_is_lb_listener_policy.go */
module LbListenerPolicy {
  import opened Wrappers
  import opened Hcl
  import opened Tflint
  import opened Checks

  const RuleName := "ibm_is_lb_listener_policy"
  const ResourceType := "ibm_is_lb_listener_policy"
  const RequiredAttrs := ["lb", "listener", "action", "priority", "name"]
  const Actions: set<GoString> := {"forward", "redirect", "reject"}
  const ActionMsg := Text("action must be one of: forward, redirect, reject")
  const TargetUrlMissing := Text("target_url must be specified when action is redirect")
  const StatusCodeMissing := Text("target_http_status_code must be specified when action is redirect")
  const PriorityMsg := Text("priority must be between 1 and 10")
  const StatusCodes: set<int> := {301, 302, 303, 307, 308}
  const StatusCodeMsg := Text("target_http_status_code must be one of: 301, 302, 303, 307, 308")
  const RuleAttrs := ["condition", "type", "field", "value"]
  const RuleTemplate := Template("`", "` attribute must be specified in rules block")
  const Conditions: set<GoString> := {"contains", "equals", "matches_regex", "not_contains", "not_equals"}
  const ConditionMsg := Text("condition must be one of: contains, equals, matches_regex, not_contains, not_equals")
  const RuleTypes: set<GoString> := {"header", "host", "path", "query", "body", "cookie"}
  const RuleTypeMsg := Text("type must be one of: header, host, path, query, body, cookie")

  /** The targets a `redirect` needs and lacks, each reported at `at`. */
  function RedirectTargets(b: Block, at: Range): seq<Issue> {
    (if Has(b, "target_url") then [] else [Issue(RuleName, TargetUrlMissing, at)])
    + (if Has(b, "target_http_status_code") then [] else [Issue(RuleName, StatusCodeMissing, at)])
  }

  /** The `action` check: a value outside the set is reported, and `redirect` asks for both targets. */
  function ActionIssues(b: Block, env: Env): Outcome {
    if !Has(b, "action") then Pass
    else
      match env.str(ExprOf(b, "action"))
      case Failure(e) => Fail(e)
      case Success(action) =>
        var at := ExprOf(b, "action").range;
        Ok((if action in Actions then [] else [Issue(RuleName, ActionMsg, at)])
           + if action == "redirect" then RedirectTargets(b, at) else [])
  }

  method CheckAction(runner: Runner, b: Block) returns (err: Option<Error>)
    modifies runner
    ensures Produced(runner, old(runner.issues), err, ActionIssues(b, runner.env))
  {
    err := None;
    if "action" in b.body.attributes {
      var x := b.body.attributes["action"].expr;
      var r := runner.EvaluateString(x);
      if r.Failure? {
        return Some(r.error);
      }
      var action := r.value;
      if action !in Actions {
        runner.EmitIssue(RuleName, ActionMsg, x.range);
      }
      if action == "redirect" {
        if "target_url" !in b.body.attributes {
          runner.EmitIssue(RuleName, TargetUrlMissing, x.range);
        }
        if "target_http_status_code" !in b.body.attributes {
          runner.EmitIssue(RuleName, StatusCodeMissing, x.range);
        }
      }
    }
  }

  predicate ActionClean(b: Block, env: Env) {
    Has(b, "action") ==>
      && env.str(ExprOf(b, "action")).Success?
      && env.str(ExprOf(b, "action")).value in Actions
      && (env.str(ExprOf(b, "action")).value == "redirect" ==> Has(b, "target_url") && Has(b, "target_http_status_code"))
  }

  lemma ActionPasses(b: Block, env: Env)
    ensures ActionIssues(b, env) == Pass <==> ActionClean(b, env)
  {
  }

  /** `validateRule`: a `rules` block needs four attributes, and its `condition` and `type` come from fixed sets. */
  function RuleIssues(b: Block, env: Env): Outcome {
    if b.typ != "rules" then Pass else
    var o := Ok(Missing(RuleName, b, RuleAttrs, RuleTemplate));
    var o := Then(o, Enum(RuleName, b, env, "condition", Conditions, ConditionMsg));
    Then(o, Enum(RuleName, b, env, "type", RuleTypes, RuleTypeMsg))
  }

  method ValidateRule(runner: Runner, b: Block) returns (err: Option<Error>)
    modifies runner
    ensures Produced(runner, old(runner.issues), err, RuleIssues(b, runner.env))
  {
    if b.typ != "rules" {
      return None;
    }
    err := None;
    CheckRequired(runner, RuleName, b, RuleAttrs, RuleTemplate);
    ghost var done := Ok(Missing(RuleName, b, RuleAttrs, RuleTemplate));
    ghost var step := Enum(RuleName, b, runner.env, "condition", Conditions, ConditionMsg);
    err := CheckEnum(runner, RuleName, b, "condition", Conditions, ConditionMsg);
    Extend(old(runner.issues), done, step);
    if err.Some? {
      return;
    }
    done := Then(done, step);
    step := Enum(RuleName, b, runner.env, "type", RuleTypes, RuleTypeMsg);
    err := CheckEnum(runner, RuleName, b, "type", RuleTypes, RuleTypeMsg);
    Extend(old(runner.issues), done, step);
  }

  /** The `rules` loop. */
  function RulesIssues(b: Block, env: Env): Outcome {
    ForEach(b.body.blocks, env, RuleIssues)
  }

  /** The loop over the blocks nested in `b`, acting on the `rules` blocks. */
  method CheckRules(runner: Runner, b: Block) returns (err: Option<Error>)
    modifies runner
    ensures Produced(runner, old(runner.issues), err, RulesIssues(b, runner.env))
  {
    var blocks := b.body.blocks;
    var i := 0;
    while i < |blocks|
      invariant 0 <= i <= |blocks|
      invariant Produced(runner, old(runner.issues), None, ForEach(blocks[..i], runner.env, RuleIssues))
    {
      err := CheckRulesStep(runner, blocks, i, old(runner.issues));
      if err.Some? {
        ForEachStopsAtError(blocks, i + 1, runner.env, RuleIssues);
        return;
      }
      i := i + 1;
    }
    assert blocks[..i] == blocks;
    return None;
  }

  /** One iteration of the `rules` loop. */
  method CheckRulesStep(runner: Runner, blocks: seq<Block>, i: nat, ghost before: seq<Issue>) returns (err: Option<Error>)
    requires i < |blocks|
    requires Produced(runner, before, None, ForEach(blocks[..i], runner.env, RuleIssues))
    modifies runner
    ensures Produced(runner, before, err, ForEach(blocks[..i + 1], runner.env, RuleIssues))
  {
    ForEachStep(blocks, i, runner.env, RuleIssues);
    err := ValidateRule(runner, blocks[i]);
    Extend(before, ForEach(blocks[..i], runner.env, RuleIssues), RuleIssues(blocks[i], runner.env));
  }

  predicate RuleIssuesClean(b: Block, env: Env) {
    b.typ == "rules" ==>
      (forall a :: a in RuleAttrs ==> Has(b, a))
      && StrIn(b, env, "condition", Conditions)
      && StrIn(b, env, "type", RuleTypes)
  }

  lemma RuleIssuesPasses(b: Block, env: Env)
    ensures RuleIssues(b, env) == Pass <==> RuleIssuesClean(b, env)
  {
    if b.typ == "rules" {
      var o0 := Ok(Missing(RuleName, b, RuleAttrs, RuleTemplate));
      var s1 := Enum(RuleName, b, env, "condition", Conditions, ConditionMsg);
      ThenPass(o0, s1);
      var o1 := Then(o0, s1);
      var s2 := Enum(RuleName, b, env, "type", RuleTypes, RuleTypeMsg);
      ThenPass(o1, s2);
      MissingNone(RuleName, b, RuleAttrs, RuleTemplate);
      EnumPass(RuleName, b, env, "condition", Conditions, ConditionMsg);
      EnumPass(RuleName, b, env, "type", RuleTypes, RuleTypeMsg);
    }
  }

  predicate RulesIssuesClean(b: Block, env: Env) {
    (forall i :: 0 <= i < |b.body.blocks| ==> RuleIssuesClean(b.body.blocks[i], env))
  }

  lemma RulesIssuesPasses(b: Block, env: Env)
    ensures RulesIssues(b, env) == Pass <==> RulesIssuesClean(b, env)
  {
    ForEachPass(b.body.blocks, env, RuleIssues);
    forall i | 0 <= i < |b.body.blocks| {
      RuleIssuesPasses(b.body.blocks[i], env);
    }
  }

  /** What `Check` does with one resource block. */
  function ResourceIssues(b: Block, env: Env): Outcome {
    var o := Ok(Missing(RuleName, b, RequiredAttrs, AttributeMustBeSpecified));
    var o := Then(o, ActionIssues(b, env));
    var o := Then(o, IntRange(RuleName, b, env, "priority", 1, 10, PriorityMsg));
    var o := Then(o, IntAmong(RuleName, b, env, "target_http_status_code", StatusCodes, StatusCodeMsg));
    Then(o, RulesIssues(b, env))
  }

  method CheckResource(runner: Runner, b: Block) returns (err: Option<Error>)
    modifies runner
    ensures Produced(runner, old(runner.issues), err, ResourceIssues(b, runner.env))
  {
    err := None;
    CheckRequired(runner, RuleName, b, RequiredAttrs, AttributeMustBeSpecified);
    ghost var done := Ok(Missing(RuleName, b, RequiredAttrs, AttributeMustBeSpecified));
    ghost var step := ActionIssues(b, runner.env);
    err := CheckAction(runner, b);
    Extend(old(runner.issues), done, step);
    if err.Some? {
      return;
    }
    done := Then(done, step);
    step := IntRange(RuleName, b, runner.env, "priority", 1, 10, PriorityMsg);
    err := CheckIntRange(runner, RuleName, b, "priority", 1, 10, PriorityMsg);
    Extend(old(runner.issues), done, step);
    if err.Some? {
      return;
    }
    done := Then(done, step);
    step := IntAmong(RuleName, b, runner.env, "target_http_status_code", StatusCodes, StatusCodeMsg);
    err := CheckIntAmong(runner, RuleName, b, "target_http_status_code", StatusCodes, StatusCodeMsg);
    Extend(old(runner.issues), done, step);
    if err.Some? {
      return;
    }
    done := Then(done, step);
    step := RulesIssues(b, runner.env);
    err := CheckRules(runner, b);
    Extend(old(runner.issues), done, step);
  }

  method Check(runner: Runner) returns (err: Option<Error>)
    modifies runner
    ensures Produced(runner, old(runner.issues), err, RunRule(runner.content, ResourceType, runner.env, ResourceIssues))
  {
    var resources := runner.GetResourceContent(ResourceType);
    if resources.Failure? {
      return Some(resources.error);
    }
    var blocks := resources.value;
    var i := 0;
    while i < |blocks|
      invariant 0 <= i <= |blocks|
      invariant Produced(runner, old(runner.issues), None, ForEach(blocks[..i], runner.env, ResourceIssues))
    {
      ForEachStep(blocks, i, runner.env, ResourceIssues);
      err := CheckResource(runner, blocks[i]);
      Extend(old(runner.issues), ForEach(blocks[..i], runner.env, ResourceIssues), ResourceIssues(blocks[i], runner.env));
      if err.Some? {
        ForEachStopsAtError(blocks, i + 1, runner.env, ResourceIssues);
        return;
      }
      i := i + 1;
    }
    assert blocks[..i] == blocks;
    return None;
  }

  /** What a resource must satisfy to draw no issue and no error. */
  predicate Clean(b: Block, env: Env) {
    (forall a :: a in RequiredAttrs ==> Has(b, a))
    && ActionClean(b, env)
    && IntIn(b, env, "priority", 1, 10)
    && IntInSet(b, env, "target_http_status_code", StatusCodes)
    && RulesIssuesClean(b, env)
  }

  /** A resource draws no issue and no error exactly when it is clean. */
  lemma Passes(b: Block, env: Env)
    ensures ResourceIssues(b, env) == Pass <==> Clean(b, env)
  {
    var o0 := Ok(Missing(RuleName, b, RequiredAttrs, AttributeMustBeSpecified));
    var s1 := ActionIssues(b, env);
    ThenPass(o0, s1);
    var o1 := Then(o0, s1);
    var s2 := IntRange(RuleName, b, env, "priority", 1, 10, PriorityMsg);
    ThenPass(o1, s2);
    var o2 := Then(o1, s2);
    var s3 := IntAmong(RuleName, b, env, "target_http_status_code", StatusCodes, StatusCodeMsg);
    ThenPass(o2, s3);
    var o3 := Then(o2, s3);
    var s4 := RulesIssues(b, env);
    ThenPass(o3, s4);
    MissingNone(RuleName, b, RequiredAttrs, AttributeMustBeSpecified);
    ActionPasses(b, env);
    IntRangePass(RuleName, b, env, "priority", 1, 10, PriorityMsg);
    IntAmongPass(RuleName, b, env, "target_http_status_code", StatusCodes, StatusCodeMsg);
    RulesIssuesPasses(b, env);
  }

  /**
   * A `redirect` lacking both targets draws two separate issues, both at
   * the action's range; the other actions never ask for targets.
   */
  lemma RedirectNeedsTargets(b: Block, env: Env)
    requires Has(b, "action") && env.str(ExprOf(b, "action")).Success?
    ensures ActionIssues(b, env).err.None?
    ensures env.str(ExprOf(b, "action")).value == "redirect" ==>
      ActionIssues(b, env).issues == RedirectTargets(b, ExprOf(b, "action").range)
    ensures env.str(ExprOf(b, "action")).value == "redirect" && !Has(b, "target_url") && !Has(b, "target_http_status_code") ==>
      ActionIssues(b, env).issues
      == [Issue(RuleName, TargetUrlMissing, ExprOf(b, "action").range), Issue(RuleName, StatusCodeMissing, ExprOf(b, "action").range)]
    ensures env.str(ExprOf(b, "action")).value != "redirect" ==>
      forall iss :: iss in ActionIssues(b, env).issues ==> iss.message == ActionMsg
  {
  }
}
