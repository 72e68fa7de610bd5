/** rules/rule_ibm_is_instance.go */
module Instance {
  import opened Wrappers
  import opened Hcl
  import opened Tflint
  import opened Checks

  const RuleName := "ibm_is_instance"
  const ResourceType := "ibm_is_instance"
  const Schema := ["name", "profile", "image", "vpc", "zone", "keys", "primary_network_interface"]
  const RequiredAttrs := ["name", "profile", "image", "vpc", "zone"]
  const ProfileEmpty := Text("`profile` attribute cannot be empty")
  const ImageEmpty := Text("`image` attribute cannot be empty")

  /** `checkRequiredAttributes`: never returns an error. */
  function RequiredIssues(b: Block, env: Env): Outcome {
    Ok(Missing(RuleName, b, RequiredAttrs, AttributeMustBeSpecified))
  }

  /** `validateProfile`, called when `profile` is present. */
  function ProfileIssues(b: Block, env: Env): Outcome {
    Valid(RuleName, b, env, "profile", NonEmpty, ProfileEmpty)
  }

  /** `validateImage`, called when `image` is present. */
  function ImageIssues(b: Block, env: Env): Outcome {
    Valid(RuleName, b, env, "image", NonEmpty, ImageEmpty)
  }

  /** What `Check` does with one resource block. */
  function ResourceIssues(b: Block, env: Env): Outcome {
    var o := RequiredIssues(b, env);
    var o := Then(o, ProfileIssues(b, env));
    Then(o, ImageIssues(b, env))
  }

  method CheckRequiredAttributes(runner: Runner, b: Block)
    modifies runner
    ensures Produced(runner, old(runner.issues), None, RequiredIssues(b, runner.env))
  {
    CheckRequired(runner, RuleName, b, RequiredAttrs, AttributeMustBeSpecified);
  }

  method ValidateProfile(runner: Runner, b: Block) returns (err: Option<Error>)
    modifies runner
    ensures Produced(runner, old(runner.issues), err, ProfileIssues(b, runner.env))
  {
    err := CheckValid(runner, RuleName, b, "profile", NonEmpty, ProfileEmpty);
  }

  method ValidateImage(runner: Runner, b: Block) returns (err: Option<Error>)
    modifies runner
    ensures Produced(runner, old(runner.issues), err, ImageIssues(b, runner.env))
  {
    err := CheckValid(runner, RuleName, b, "image", NonEmpty, ImageEmpty);
  }

  method CheckResource(runner: Runner, b: Block) returns (err: Option<Error>)
    modifies runner
    ensures Produced(runner, old(runner.issues), err, ResourceIssues(b, runner.env))
  {
    err := None;
    CheckRequiredAttributes(runner, b);
    ghost var done := RequiredIssues(b, runner.env);
    ghost var step := ProfileIssues(b, runner.env);
    err := ValidateProfile(runner, b);
    Extend(old(runner.issues), done, step);
    if err.Some? {
      return;
    }
    done := Then(done, step);
    step := ImageIssues(b, runner.env);
    err := ValidateImage(runner, b);
    Extend(old(runner.issues), done, step);
  }

  /**
   * `IBMIsInstanceRule`: unlike the other rules, it keeps its resource type
   * and attribute schema in fields, filled by its constructor.
   */
  class InstanceRule {
    const resourceType: string
    const attributeSchema: seq<string>

    /** The fields as `NewIBMIsInstanceRule` fills them. */
    ghost predicate Valid() {
      resourceType == ResourceType && attributeSchema == Schema
    }

    /** `NewIBMIsInstanceRule`. */
    constructor ()
      ensures Valid()
      ensures Name() == RuleName
    {
      resourceType := "ibm_is_instance";
      attributeSchema := ["name", "profile", "image", "vpc", "zone", "keys", "primary_network_interface"];
    }

    /** `Name` reports the stored resource type. */
    function Name(): string {
      resourceType
    }

    /** `Check` fetches the stored resource type and checks each resource. */
    method Check(runner: Runner) returns (err: Option<Error>)
      requires Valid()
      modifies runner
      ensures Produced(runner, old(runner.issues), err, RunRule(runner.content, resourceType, runner.env, ResourceIssues))
    {
      var resources := runner.GetResourceContent(resourceType);
      if resources.Failure? {
        return Some(resources.error);
      }
      var blocks := resources.value;
      var i := 0;
      while i < |blocks|
        invariant 0 <= i <= |blocks|
        invariant Produced(runner, old(runner.issues), None, ForEach(blocks[..i], runner.env, ResourceIssues))
      {
        ForEachStep(blocks, i, runner.env, ResourceIssues);
        err := CheckResource(runner, blocks[i]);
        Extend(old(runner.issues), ForEach(blocks[..i], runner.env, ResourceIssues), ResourceIssues(blocks[i], runner.env));
        if err.Some? {
          ForEachStopsAtError(blocks, i + 1, runner.env, ResourceIssues);
          return;
        }
        i := i + 1;
      }
      assert blocks[..i] == blocks;
      return None;
    }
  }

  predicate RequiredIssuesClean(b: Block, env: Env) {
    (forall a :: a in RequiredAttrs ==> Has(b, a))
  }

  lemma RequiredIssuesPasses(b: Block, env: Env)
    ensures RequiredIssues(b, env) == Pass <==> RequiredIssuesClean(b, env)
  {
    MissingNone(RuleName, b, RequiredAttrs, AttributeMustBeSpecified);
  }

  predicate ProfileIssuesClean(b: Block, env: Env) {
    StrIs(b, env, "profile", NonEmpty)
  }

  lemma ProfileIssuesPasses(b: Block, env: Env)
    ensures ProfileIssues(b, env) == Pass <==> ProfileIssuesClean(b, env)
  {
    ValidPass(RuleName, b, env, "profile", NonEmpty, ProfileEmpty);
  }

  predicate ImageIssuesClean(b: Block, env: Env) {
    StrIs(b, env, "image", NonEmpty)
  }

  lemma ImageIssuesPasses(b: Block, env: Env)
    ensures ImageIssues(b, env) == Pass <==> ImageIssuesClean(b, env)
  {
    ValidPass(RuleName, b, env, "image", NonEmpty, ImageEmpty);
  }

  /** What a resource must satisfy to draw no issue and no error. */
  predicate Clean(b: Block, env: Env) {
    RequiredIssuesClean(b, env)
    && ProfileIssuesClean(b, env)
    && ImageIssuesClean(b, env)
  }

  /** A resource draws no issue and no error exactly when it is clean. */
  lemma Passes(b: Block, env: Env)
    ensures ResourceIssues(b, env) == Pass <==> Clean(b, env)
  {
    var o0 := RequiredIssues(b, env);
    var s1 := ProfileIssues(b, env);
    ThenPass(o0, s1);
    var o1 := Then(o0, s1);
    var s2 := ImageIssues(b, env);
    ThenPass(o1, s2);
    RequiredIssuesPasses(b, env);
    ProfileIssuesPasses(b, env);
    ImageIssuesPasses(b, env);
  }

  /** An evaluation error on `profile` ends the resource's check with that error; `image` is not looked at. */
  lemma ProfileErrorEnds(b: Block, env: Env)
    requires Has(b, "profile") && env.str(ExprOf(b, "profile")).Failure?
    ensures ResourceIssues(b, env) == Outcome(Missing(RuleName, b, RequiredAttrs, AttributeMustBeSpecified),
                                              Some(env.str(ExprOf(b, "profile")).error))
  {
  }

  /** `keys` is in the schema but not required. */
  lemma KeysNotRequired()
    ensures "keys" in Schema && "keys" !in RequiredAttrs
  {
  }
}
