/** rules/rule_ibm_is_bare_metal_server_action.go */
module BareMetalServerAction {
  import opened Wrappers
  import opened Hcl
  import opened Tflint
  import opened Checks

  const RuleName := "ibm_is_bare_metal_server_action"
  const ResourceType := "ibm_is_bare_metal_server_action"
  const RequiredAttrs := ["bare_metal_server", "action"]
  const Actions: set<GoString> := {"start", "stop", "reboot"}
  const ActionMsg := Text("action must be one of: start, stop, reboot")
  const StopTypes: set<GoString> := {"hard", "soft"}
  const StopTypeMsg := Text("stop_type must be either 'hard' or 'soft'")
  const StopTypeRequired := Text("stop_type must be specified when action is 'stop'")

  /**
   * The `action` check: a value outside the set is reported, and the value
   * `stop` further asks for a `stop_type` of `hard` or `soft`; a missing
   * `stop_type` is reported at the `action` expression.
   */
  function ActionIssues(b: Block, env: Env): Outcome {
    if !Has(b, "action") then Pass
    else
      match env.str(ExprOf(b, "action"))
      case Failure(e) => Fail(e)
      case Success(action) =>
        var o := Ok(if action in Actions then [] else [Issue(RuleName, ActionMsg, ExprOf(b, "action").range)]);
        if action != "stop" then o
        else if Has(b, "stop_type") then Then(o, Enum(RuleName, b, env, "stop_type", StopTypes, StopTypeMsg))
        else Ok(o.issues + [Issue(RuleName, StopTypeRequired, ExprOf(b, "action").range)])
  }

  method CheckAction(runner: Runner, b: Block) returns (err: Option<Error>)
    modifies runner
    ensures Produced(runner, old(runner.issues), err, ActionIssues(b, runner.env))
  {
    err := None;
    if "action" in b.body.attributes {
      var x := b.body.attributes["action"].expr;
      var r := runner.EvaluateString(x);
      if r.Failure? {
        return Some(r.error);
      }
      var action := r.value;
      if action !in Actions {
        runner.EmitIssue(RuleName, ActionMsg, x.range);
      }
      ghost var o := Ok(if action in Actions then [] else [Issue(RuleName, ActionMsg, x.range)]);
      if action == "stop" {
        if "stop_type" in b.body.attributes {
          err := CheckEnum(runner, RuleName, b, "stop_type", StopTypes, StopTypeMsg);
          Extend(old(runner.issues), o, Enum(RuleName, b, runner.env, "stop_type", StopTypes, StopTypeMsg));
        } else {
          runner.EmitIssue(RuleName, StopTypeRequired, x.range);
        }
      }
    }
  }

  predicate ActionClean(b: Block, env: Env) {
    Has(b, "action") ==>
      && env.str(ExprOf(b, "action")).Success?
      && env.str(ExprOf(b, "action")).value in Actions
      && (env.str(ExprOf(b, "action")).value == "stop" ==> Has(b, "stop_type") && StrIn(b, env, "stop_type", StopTypes))
  }

  lemma ActionPasses(b: Block, env: Env)
    ensures ActionIssues(b, env) == Pass <==> ActionClean(b, env)
  {
    if Has(b, "action") && env.str(ExprOf(b, "action")).Success? {
      var action := env.str(ExprOf(b, "action")).value;
      var o := Ok(if action in Actions then [] else [Issue(RuleName, ActionMsg, ExprOf(b, "action").range)]);
      if action == "stop" && Has(b, "stop_type") {
        ThenPass(o, Enum(RuleName, b, env, "stop_type", StopTypes, StopTypeMsg));
        EnumPass(RuleName, b, env, "stop_type", StopTypes, StopTypeMsg);
      }
    }
  }

  /** What `Check` does with one resource block. */
  function ResourceIssues(b: Block, env: Env): Outcome {
    var o := Ok(Missing(RuleName, b, RequiredAttrs, AttributeMustBeSpecified));
    Then(o, ActionIssues(b, env))
  }

  method CheckResource(runner: Runner, b: Block) returns (err: Option<Error>)
    modifies runner
    ensures Produced(runner, old(runner.issues), err, ResourceIssues(b, runner.env))
  {
    err := None;
    CheckRequired(runner, RuleName, b, RequiredAttrs, AttributeMustBeSpecified);
    ghost var done := Ok(Missing(RuleName, b, RequiredAttrs, AttributeMustBeSpecified));
    ghost var step := ActionIssues(b, runner.env);
    err := CheckAction(runner, b);
    Extend(old(runner.issues), done, step);
  }

  method Check(runner: Runner) returns (err: Option<Error>)
    modifies runner
    ensures Produced(runner, old(runner.issues), err, RunRule(runner.content, ResourceType, runner.env, ResourceIssues))
  {
    var resources := runner.GetResourceContent(ResourceType);
    if resources.Failure? {
      return Some(resources.error);
    }
    var blocks := resources.value;
    var i := 0;
    while i < |blocks|
      invariant 0 <= i <= |blocks|
      invariant Produced(runner, old(runner.issues), None, ForEach(blocks[..i], runner.env, ResourceIssues))
    {
      ForEachStep(blocks, i, runner.env, ResourceIssues);
      err := CheckResource(runner, blocks[i]);
      Extend(old(runner.issues), ForEach(blocks[..i], runner.env, ResourceIssues), ResourceIssues(blocks[i], runner.env));
      if err.Some? {
        ForEachStopsAtError(blocks, i + 1, runner.env, ResourceIssues);
        return;
      }
      i := i + 1;
    }
    assert blocks[..i] == blocks;
    return None;
  }

  /** What a resource must satisfy to draw no issue and no error. */
  predicate Clean(b: Block, env: Env) {
    (forall a :: a in RequiredAttrs ==> Has(b, a))
    && ActionClean(b, env)
  }

  /** A resource draws no issue and no error exactly when it is clean. */
  lemma Passes(b: Block, env: Env)
    ensures ResourceIssues(b, env) == Pass <==> Clean(b, env)
  {
    var o0 := Ok(Missing(RuleName, b, RequiredAttrs, AttributeMustBeSpecified));
    var s1 := ActionIssues(b, env);
    ThenPass(o0, s1);
    MissingNone(RuleName, b, RequiredAttrs, AttributeMustBeSpecified);
    ActionPasses(b, env);
  }

  /** `action = "stop"` without `stop_type` is reported once, at the action, and ends without error. */
  lemma StopNeedsStopType(b: Block, env: Env)
    requires Has(b, "action") && env.str(ExprOf(b, "action")) == Success("stop")
    requires !Has(b, "stop_type")
    ensures ActionIssues(b, env) == Ok([Issue(RuleName, StopTypeRequired, ExprOf(b, "action").range)])
  {
  }

  /** For any other action `stop_type` is never looked at. */
  lemma StopTypeOnlyForStop(b: Block, env: Env)
    requires Has(b, "action") && env.str(ExprOf(b, "action")).Success?
    requires env.str(ExprOf(b, "action")).value != "stop"
    ensures ActionIssues(b, env).err.None?
    ensures ActionIssues(b, env).issues == (if env.str(ExprOf(b, "action")).value in Actions then []
                                            else [Issue(RuleName, ActionMsg, ExprOf(b, "action").range)])
  {
  }
}
