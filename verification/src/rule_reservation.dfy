/** rules/rule_ibm_is_reservation.go */
module Reservation {
  import opened Wrappers
  import opened Hcl
  import opened Tflint
  import opened Checks
  import opened Validators

  const RuleName := "ibm_is_reservation"
  const ResourceType := "ibm_is_reservation"
  const TotalMsg := Text("capacity total must be greater than 0")
  const Terms: set<GoString> := {"one_year", "three_year"}
  const TermMsg := Text("term must be either 'one_year' or 'three_year'")
  const ResourceTypes: set<GoString> := {"instance_profile", "volume_profile"}
  const ResourceTypeMsg := Text("resource_type must be either 'instance_profile' or 'volume_profile'")
  const NoCapacity := Text("capacity block must be specified")
  const NoCommittedUse := Text("committed_use block must be specified")
  const NoProfile := Text("profile block must be specified")

  /** One nested block, by the `switch block.Type` arms; any other type is ignored. */
  function NestedIssues(b: Block, env: Env): Outcome {
    if b.typ == "capacity" then IntAtLeast(RuleName, b, env, "total", 1, TotalMsg)
    else if b.typ == "committed_use" then Enum(RuleName, b, env, "term", Terms, TermMsg)
    else if b.typ == "profile" then Enum(RuleName, b, env, "resource_type", ResourceTypes, ResourceTypeMsg)
    else Pass
  }

  method CheckNested(runner: Runner, b: Block) returns (err: Option<Error>)
    modifies runner
    ensures Produced(runner, old(runner.issues), err, NestedIssues(b, runner.env))
  {
    err := None;
    if b.typ == "capacity" {
      err := CheckIntAtLeast(runner, RuleName, b, "total", 1, TotalMsg);
    } else if b.typ == "committed_use" {
      err := CheckEnum(runner, RuleName, b, "term", Terms, TermMsg);
    } else if b.typ == "profile" {
      err := CheckEnum(runner, RuleName, b, "resource_type", ResourceTypes, ResourceTypeMsg);
    }
  }

  /** The three block kinds a reservation must hold, each reported at the DefRange when absent. */
  function AbsentBlocks(b: Block): (r: seq<Issue>)
    ensures r == [] <==>
      && AnyOfType(b.body.blocks, "capacity")
      && AnyOfType(b.body.blocks, "committed_use")
      && AnyOfType(b.body.blocks, "profile")
  {
    (if AnyOfType(b.body.blocks, "capacity") then [] else [Issue(RuleName, NoCapacity, b.defRange)])
    + (if AnyOfType(b.body.blocks, "committed_use") then [] else [Issue(RuleName, NoCommittedUse, b.defRange)])
    + (if AnyOfType(b.body.blocks, "profile") then [] else [Issue(RuleName, NoProfile, b.defRange)])
  }

  /** The loop over the nested blocks, then the three presence tests. */
  function BlocksIssues(b: Block, env: Env): Outcome {
    Then(ForEach(b.body.blocks, env, NestedIssues), Ok(AbsentBlocks(b)))
  }

  method CheckBlocks(runner: Runner, b: Block) returns (err: Option<Error>)
    modifies runner
    ensures Produced(runner, old(runner.issues), err, BlocksIssues(b, runner.env))
  {
    var blocks := b.body.blocks;
    var hasCapacity := false;
    var hasCommittedUse := false;
    var hasProfile := false;
    var i := 0;
    while i < |blocks|
      invariant 0 <= i <= |blocks|
      invariant hasCapacity == AnyOfType(blocks[..i], "capacity")
      invariant hasCommittedUse == AnyOfType(blocks[..i], "committed_use")
      invariant hasProfile == AnyOfType(blocks[..i], "profile")
      invariant Produced(runner, old(runner.issues), None, ForEach(blocks[..i], runner.env, NestedIssues))
    {
      AnyOfTypeStep(blocks, i, "capacity");
      AnyOfTypeStep(blocks, i, "committed_use");
      AnyOfTypeStep(blocks, i, "profile");
      ForEachStep(blocks, i, runner.env, NestedIssues);
      var blk := blocks[i];
      if blk.typ == "capacity" {
        hasCapacity := true;
      } else if blk.typ == "committed_use" {
        hasCommittedUse := true;
      } else if blk.typ == "profile" {
        hasProfile := true;
      }
      err := CheckNested(runner, blk);
      Extend(old(runner.issues), ForEach(blocks[..i], runner.env, NestedIssues), NestedIssues(blk, runner.env));
      if err.Some? {
        ForEachStopsAtError(blocks, i + 1, runner.env, NestedIssues);
        return;
      }
      i := i + 1;
    }
    assert blocks[..i] == blocks;
    ghost var loop := ForEach(blocks, runner.env, NestedIssues);
    ReportAbsent(runner, b, hasCapacity, hasCommittedUse, hasProfile);
    Extend(old(runner.issues), loop, Ok(AbsentBlocks(b)));
    return None;
  }

  /** The three presence tests after the loop, given what the loop found. */
  method ReportAbsent(runner: Runner, b: Block, hasCapacity: bool, hasCommittedUse: bool, hasProfile: bool)
    requires hasCapacity == AnyOfType(b.body.blocks, "capacity")
    requires hasCommittedUse == AnyOfType(b.body.blocks, "committed_use")
    requires hasProfile == AnyOfType(b.body.blocks, "profile")
    modifies runner
    ensures runner.issues == old(runner.issues) + AbsentBlocks(b)
  {
    if !hasCapacity {
      runner.EmitIssue(RuleName, NoCapacity, b.defRange);
    }
    if !hasCommittedUse {
      runner.EmitIssue(RuleName, NoCommittedUse, b.defRange);
    }
    if !hasProfile {
      runner.EmitIssue(RuleName, NoProfile, b.defRange);
    }
  }

  predicate NestedClean(b: Block, env: Env) {
    && (b.typ == "capacity" ==> IntFrom(b, env, "total", 1))
    && (b.typ == "committed_use" ==> StrIn(b, env, "term", Terms))
    && (b.typ == "profile" ==> StrIn(b, env, "resource_type", ResourceTypes))
  }

  predicate BlocksClean(b: Block, env: Env) {
    && (forall i :: 0 <= i < |b.body.blocks| ==> NestedClean(b.body.blocks[i], env))
    && AnyOfType(b.body.blocks, "capacity")
    && AnyOfType(b.body.blocks, "committed_use")
    && AnyOfType(b.body.blocks, "profile")
  }

  lemma BlocksPasses(b: Block, env: Env)
    ensures BlocksIssues(b, env) == Pass <==> BlocksClean(b, env)
  {
    ThenPass(ForEach(b.body.blocks, env, NestedIssues), Ok(AbsentBlocks(b)));
    ForEachPass(b.body.blocks, env, NestedIssues);
    forall i | 0 <= i < |b.body.blocks|
      ensures NestedIssues(b.body.blocks[i], env) == Pass <==> NestedClean(b.body.blocks[i], env)
    {
      var blk := b.body.blocks[i];
      IntAtLeastPass(RuleName, blk, env, "total", 1, TotalMsg);
      EnumPass(RuleName, blk, env, "term", Terms, TermMsg);
      EnumPass(RuleName, blk, env, "resource_type", ResourceTypes, ResourceTypeMsg);
    }
  }

  /** What `Check` does with one resource block. */
  function ResourceIssues(b: Block, env: Env): Outcome {
    var o := BlocksIssues(b, env);
    Then(o, Valid(RuleName, b, env, "zone", IsValidZone, InvalidZone))
  }

  method CheckResource(runner: Runner, b: Block) returns (err: Option<Error>)
    modifies runner
    ensures Produced(runner, old(runner.issues), err, ResourceIssues(b, runner.env))
  {
    err := CheckBlocks(runner, b);
    ghost var done := BlocksIssues(b, runner.env);
    if err.Some? {
      return;
    }
    ghost var step := Valid(RuleName, b, runner.env, "zone", IsValidZone, InvalidZone);
    err := CheckValid(runner, RuleName, b, "zone", IsValidZone, InvalidZone);
    Extend(old(runner.issues), done, step);
  }

  method Check(runner: Runner) returns (err: Option<Error>)
    modifies runner
    ensures Produced(runner, old(runner.issues), err, RunRule(runner.content, ResourceType, runner.env, ResourceIssues))
  {
    var resources := runner.GetResourceContent(ResourceType);
    if resources.Failure? {
      return Some(resources.error);
    }
    var blocks := resources.value;
    var i := 0;
    while i < |blocks|
      invariant 0 <= i <= |blocks|
      invariant Produced(runner, old(runner.issues), None, ForEach(blocks[..i], runner.env, ResourceIssues))
    {
      ForEachStep(blocks, i, runner.env, ResourceIssues);
      err := CheckResource(runner, blocks[i]);
      Extend(old(runner.issues), ForEach(blocks[..i], runner.env, ResourceIssues), ResourceIssues(blocks[i], runner.env));
      if err.Some? {
        ForEachStopsAtError(blocks, i + 1, runner.env, ResourceIssues);
        return;
      }
      i := i + 1;
    }
    assert blocks[..i] == blocks;
    return None;
  }

  /** What a resource must satisfy to draw no issue and no error. */
  predicate Clean(b: Block, env: Env) {
    BlocksClean(b, env)
    && StrIs(b, env, "zone", IsValidZone)
  }

  /** A resource draws no issue and no error exactly when it is clean. */
  lemma Passes(b: Block, env: Env)
    ensures ResourceIssues(b, env) == Pass <==> Clean(b, env)
  {
    var o0 := BlocksIssues(b, env);
    var s1 := Valid(RuleName, b, env, "zone", IsValidZone, InvalidZone);
    ThenPass(o0, s1);
    BlocksPasses(b, env);
    ValidPass(RuleName, b, env, "zone", IsValidZone, InvalidZone);
  }

  /** A reservation without nested blocks draws the three presence issues, in the source's order. */
  lemma EmptyReservation(b: Block, env: Env)
    requires b.body.blocks == []
    ensures BlocksIssues(b, env)
         == Ok([Issue(RuleName, NoCapacity, b.defRange), Issue(RuleName, NoCommittedUse, b.defRange),
                Issue(RuleName, NoProfile, b.defRange)])
  {
  }
}
