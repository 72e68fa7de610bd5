/** rules/rule_ibm_is_snapshot.go */
module Snapshot {
  import opened Wrappers
  import opened Hcl
  import opened Tflint
  import opened Checks
  import opened Validators

  const RuleName := "ibm_is_snapshot"
  const ResourceType := "ibm_is_snapshot"
  const RequiredAttrs := ["name", "source_volume"]
  const ClonesTemplate := Template("invalid zone format in clones: ", ". Must be in format: region-number (e.g., us-south-1)")
  const TimeoutTemplate := Template("invalid timeout format for ", ": must be a valid duration string (e.g., '15m', '1h')")
  const CreateTimeoutMsg := Fill(TimeoutTemplate, "create")
  const DeleteTimeoutMsg := Fill(TimeoutTemplate, "delete")

  /** `validateTimeouts`: a present `create` or `delete` of a `timeouts` block must be a duration. */
  function TimeoutsIssues(b: Block, env: Env): Outcome {
    if b.typ != "timeouts" then Pass else
    var o := Valid(RuleName, b, env, "create", IsValidTimeout, CreateTimeoutMsg);
    Then(o, Valid(RuleName, b, env, "delete", IsValidTimeout, DeleteTimeoutMsg))
  }

  method ValidateTimeouts(runner: Runner, b: Block) returns (err: Option<Error>)
    modifies runner
    ensures Produced(runner, old(runner.issues), err, TimeoutsIssues(b, runner.env))
  {
    if b.typ != "timeouts" {
      return None;
    }
    err := CheckValid(runner, RuleName, b, "create", IsValidTimeout, CreateTimeoutMsg);
    ghost var done := Valid(RuleName, b, runner.env, "create", IsValidTimeout, CreateTimeoutMsg);
    if err.Some? {
      return;
    }
    ghost var step := Valid(RuleName, b, runner.env, "delete", IsValidTimeout, DeleteTimeoutMsg);
    err := CheckValid(runner, RuleName, b, "delete", IsValidTimeout, DeleteTimeoutMsg);
    Extend(old(runner.issues), done, step);
  }

  /** The `timeouts` loop. */
  function TimeoutBlocksIssues(b: Block, env: Env): Outcome {
    ForEach(b.body.blocks, env, TimeoutsIssues)
  }

  /** The loop over the blocks nested in `b`, acting on the `timeouts` blocks. */
  method CheckTimeoutBlocks(runner: Runner, b: Block) returns (err: Option<Error>)
    modifies runner
    ensures Produced(runner, old(runner.issues), err, TimeoutBlocksIssues(b, runner.env))
  {
    var blocks := b.body.blocks;
    var i := 0;
    while i < |blocks|
      invariant 0 <= i <= |blocks|
      invariant Produced(runner, old(runner.issues), None, ForEach(blocks[..i], runner.env, TimeoutsIssues))
    {
      err := CheckTimeoutBlocksStep(runner, blocks, i, old(runner.issues));
      if err.Some? {
        ForEachStopsAtError(blocks, i + 1, runner.env, TimeoutsIssues);
        return;
      }
      i := i + 1;
    }
    assert blocks[..i] == blocks;
    return None;
  }

  /** One iteration of the `timeouts` loop. */
  method CheckTimeoutBlocksStep(runner: Runner, blocks: seq<Block>, i: nat, ghost before: seq<Issue>) returns (err: Option<Error>)
    requires i < |blocks|
    requires Produced(runner, before, None, ForEach(blocks[..i], runner.env, TimeoutsIssues))
    modifies runner
    ensures Produced(runner, before, err, ForEach(blocks[..i + 1], runner.env, TimeoutsIssues))
  {
    ForEachStep(blocks, i, runner.env, TimeoutsIssues);
    err := ValidateTimeouts(runner, blocks[i]);
    Extend(before, ForEach(blocks[..i], runner.env, TimeoutsIssues), TimeoutsIssues(blocks[i], runner.env));
  }

  predicate TimeoutsIssuesClean(b: Block, env: Env) {
    b.typ == "timeouts" ==>
      StrIs(b, env, "create", IsValidTimeout)
      && StrIs(b, env, "delete", IsValidTimeout)
  }

  lemma TimeoutsIssuesPasses(b: Block, env: Env)
    ensures TimeoutsIssues(b, env) == Pass <==> TimeoutsIssuesClean(b, env)
  {
    if b.typ == "timeouts" {
      var o0 := Valid(RuleName, b, env, "create", IsValidTimeout, CreateTimeoutMsg);
      var s1 := Valid(RuleName, b, env, "delete", IsValidTimeout, DeleteTimeoutMsg);
      ThenPass(o0, s1);
      ValidPass(RuleName, b, env, "create", IsValidTimeout, CreateTimeoutMsg);
      ValidPass(RuleName, b, env, "delete", IsValidTimeout, DeleteTimeoutMsg);
    }
  }

  predicate TimeoutBlocksIssuesClean(b: Block, env: Env) {
    (forall i :: 0 <= i < |b.body.blocks| ==> TimeoutsIssuesClean(b.body.blocks[i], env))
  }

  lemma TimeoutBlocksIssuesPasses(b: Block, env: Env)
    ensures TimeoutBlocksIssues(b, env) == Pass <==> TimeoutBlocksIssuesClean(b, env)
  {
    ForEachPass(b.body.blocks, env, TimeoutsIssues);
    forall i | 0 <= i < |b.body.blocks| {
      TimeoutsIssuesPasses(b.body.blocks[i], env);
    }
  }

  /** What `Check` does with one resource block. */
  function ResourceIssues(b: Block, env: Env): Outcome {
    var o := Ok(Missing(RuleName, b, RequiredAttrs, AttributeMustBeSpecified));
    var o := Then(o, NameLength(RuleName, b, env, "name", NameEmpty, NameTooLong));
    var o := Then(o, NamedElements(RuleName, b, env, "clones", IsValidZone, ClonesTemplate));
    Then(o, TimeoutBlocksIssues(b, env))
  }

  method CheckResource(runner: Runner, b: Block) returns (err: Option<Error>)
    modifies runner
    ensures Produced(runner, old(runner.issues), err, ResourceIssues(b, runner.env))
  {
    err := None;
    CheckRequired(runner, RuleName, b, RequiredAttrs, AttributeMustBeSpecified);
    ghost var done := Ok(Missing(RuleName, b, RequiredAttrs, AttributeMustBeSpecified));
    ghost var step := NameLength(RuleName, b, runner.env, "name", NameEmpty, NameTooLong);
    err := CheckNameLength(runner, RuleName, b, "name", NameEmpty, NameTooLong);
    Extend(old(runner.issues), done, step);
    if err.Some? {
      return;
    }
    done := Then(done, step);
    step := NamedElements(RuleName, b, runner.env, "clones", IsValidZone, ClonesTemplate);
    err := CheckNamedElements(runner, RuleName, b, "clones", IsValidZone, ClonesTemplate);
    Extend(old(runner.issues), done, step);
    if err.Some? {
      return;
    }
    done := Then(done, step);
    step := TimeoutBlocksIssues(b, runner.env);
    err := CheckTimeoutBlocks(runner, b);
    Extend(old(runner.issues), done, step);
  }

  method Check(runner: Runner) returns (err: Option<Error>)
    modifies runner
    ensures Produced(runner, old(runner.issues), err, RunRule(runner.content, ResourceType, runner.env, ResourceIssues))
  {
    var resources := runner.GetResourceContent(ResourceType);
    if resources.Failure? {
      return Some(resources.error);
    }
    var blocks := resources.value;
    var i := 0;
    while i < |blocks|
      invariant 0 <= i <= |blocks|
      invariant Produced(runner, old(runner.issues), None, ForEach(blocks[..i], runner.env, ResourceIssues))
    {
      ForEachStep(blocks, i, runner.env, ResourceIssues);
      err := CheckResource(runner, blocks[i]);
      Extend(old(runner.issues), ForEach(blocks[..i], runner.env, ResourceIssues), ResourceIssues(blocks[i], runner.env));
      if err.Some? {
        ForEachStopsAtError(blocks, i + 1, runner.env, ResourceIssues);
        return;
      }
      i := i + 1;
    }
    assert blocks[..i] == blocks;
    return None;
  }

  /** What a resource must satisfy to draw no issue and no error. */
  predicate Clean(b: Block, env: Env) {
    (forall a :: a in RequiredAttrs ==> Has(b, a))
    && NameOk(b, env, "name")
    && AllElements(b, env, "clones", IsValidZone)
    && TimeoutBlocksIssuesClean(b, env)
  }

  /** A resource draws no issue and no error exactly when it is clean. */
  lemma Passes(b: Block, env: Env)
    ensures ResourceIssues(b, env) == Pass <==> Clean(b, env)
  {
    var o0 := Ok(Missing(RuleName, b, RequiredAttrs, AttributeMustBeSpecified));
    var s1 := NameLength(RuleName, b, env, "name", NameEmpty, NameTooLong);
    ThenPass(o0, s1);
    var o1 := Then(o0, s1);
    var s2 := NamedElements(RuleName, b, env, "clones", IsValidZone, ClonesTemplate);
    ThenPass(o1, s2);
    var o2 := Then(o1, s2);
    var s3 := TimeoutBlocksIssues(b, env);
    ThenPass(o2, s3);
    MissingNone(RuleName, b, RequiredAttrs, AttributeMustBeSpecified);
    NameLengthPass(RuleName, b, env, "name", NameEmpty, NameTooLong);
    NamedElementsPass(RuleName, b, env, "clones", IsValidZone, ClonesTemplate);
    TimeoutBlocksIssuesPasses(b, env);
  }

  /**
   * Every bad zone in `clones` draws its own issue, naming it, in list
   * order; as zones are only tested for emptiness, the zones named are
   * the empty strings of the list.
   */
  lemma EachBadCloneNamed(b: Block, env: Env)
    requires Has(b, "clones") && env.strs(ExprOf(b, "clones")).Success?
    ensures NamedElements(RuleName, b, env, "clones", IsValidZone, ClonesTemplate).err.None?
    ensures |NamedElements(RuleName, b, env, "clones", IsValidZone, ClonesTemplate).issues|
         == |Rejected(env.strs(ExprOf(b, "clones")).value, IsValidZone)|
    ensures forall k :: 0 <= k < |NamedElements(RuleName, b, env, "clones", IsValidZone, ClonesTemplate).issues| ==>
      NamedElements(RuleName, b, env, "clones", IsValidZone, ClonesTemplate).issues[k]
      == Issue(RuleName, Fill(ClonesTemplate, []), ExprOf(b, "clones").range)
  {
    var vs := env.strs(ExprOf(b, "clones")).value;
    NamedElementIssuesName(vs, IsValidZone, RuleName, ClonesTemplate, ExprOf(b, "clones").range);
    forall k | 0 <= k < |Rejected(vs, IsValidZone)|
      ensures Rejected(vs, IsValidZone)[k] == []
    {
      assert Rejected(vs, IsValidZone)[k] in Rejected(vs, IsValidZone);
    }
  }
}
