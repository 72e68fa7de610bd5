/** rules/rule_ibm_is_instance_template.go */
module InstanceTemplate {
  import opened Wrappers
  import opened Hcl
  import opened Tflint
  import opened Checks
  import opened Validators

  const RuleName := "ibm_is_instance_template"
  const ResourceType := "ibm_is_instance_template"
  const RequiredAttrs := ["name", "profile", "image", "vpc", "zone", "keys"]
  const Profiles: set<GoString> := {"bx2-2x8", "bx2-4x16", "cx2-2x4", "mx2-2x16"}
  const ProfileMsg := Text("invalid instance profile specified")
  const AttachmentNameMissing := Text("name attribute must be specified in primary_network_attachment block")
  const InterfaceIdMissing := Text("id attribute must be specified in virtual_network_interface block")
  const NoInterface := Text("virtual_network_interface block must be specified in primary_network_attachment")

  /** One doubly nested block: a `virtual_network_interface` block needs `id`. */
  function InterfaceIssues(b: Block, env: Env): Outcome {
    if b.typ != "virtual_network_interface" then Pass else
    Ok(Require(RuleName, b, "id", InterfaceIdMissing))
  }

  method CheckInterface(runner: Runner, b: Block)
    modifies runner
    ensures Produced(runner, old(runner.issues), None, InterfaceIssues(b, runner.env))
  {
    if b.typ != "virtual_network_interface" {
      return;
    }
    CheckRequire(runner, RuleName, b, "id", InterfaceIdMissing);
  }

  /** The `virtual_network_interface` loop, then the test on whether such a block exists. */
  function InterfacesIssues(b: Block, env: Env): Outcome {
    Then(ForEach(b.body.blocks, env, InterfaceIssues),
         Ok(if AnyOfType(b.body.blocks, "virtual_network_interface") then [] else [Issue(RuleName, NoInterface, b.defRange)]))
  }

  /** The loop over the blocks nested in `b`, acting on the `virtual_network_interface` blocks. */
  method CheckInterfaces(runner: Runner, b: Block)
    modifies runner
    ensures Produced(runner, old(runner.issues), None, InterfacesIssues(b, runner.env))
  {
    var blocks := b.body.blocks;
    var hasVNI := false;
    var i := 0;
    while i < |blocks|
      invariant 0 <= i <= |blocks|
      invariant hasVNI == AnyOfType(blocks[..i], "virtual_network_interface")
      invariant Produced(runner, old(runner.issues), None, ForEach(blocks[..i], runner.env, InterfaceIssues))
    {
      AnyOfTypeStep(blocks, i, "virtual_network_interface");
      ForEachAppend(old(runner.issues), blocks, i, runner.env, InterfaceIssues);
      var blk := blocks[i];
      if blk.typ == "virtual_network_interface" {
        hasVNI := true;
      }
      CheckInterface(runner, blk);
      i := i + 1;
    }
    assert blocks[..i] == blocks;
    ghost var loop := ForEach(blocks, runner.env, InterfaceIssues);
    if !hasVNI {
      runner.EmitIssue(RuleName, NoInterface, b.defRange);
    }
    Extend(old(runner.issues), loop, Ok(if AnyOfType(blocks, "virtual_network_interface") then [] else [Issue(RuleName, NoInterface, b.defRange)]));
  }

  predicate InterfaceIssuesClean(b: Block, env: Env) {
    b.typ == "virtual_network_interface" ==>
      Has(b, "id")
  }

  lemma InterfaceIssuesPasses(b: Block, env: Env)
    ensures InterfaceIssues(b, env) == Pass <==> InterfaceIssuesClean(b, env)
  {
  }

  predicate InterfacesIssuesClean(b: Block, env: Env) {
    (forall i :: 0 <= i < |b.body.blocks| ==> InterfaceIssuesClean(b.body.blocks[i], env))
    && AnyOfType(b.body.blocks, "virtual_network_interface")
  }

  lemma InterfacesIssuesPasses(b: Block, env: Env)
    ensures InterfacesIssues(b, env) == Pass <==> InterfacesIssuesClean(b, env)
  {
    ThenPass(ForEach(b.body.blocks, env, InterfaceIssues), Ok(if AnyOfType(b.body.blocks, "virtual_network_interface") then [] else [Issue(RuleName, NoInterface, b.defRange)]));
    ForEachPass(b.body.blocks, env, InterfaceIssues);
    forall i | 0 <= i < |b.body.blocks| {
      InterfaceIssuesPasses(b.body.blocks[i], env);
    }
  }

  /**
   * Without any `virtual_network_interface` block, the `virtual_network_interface` loop draws exactly one issue,
   * "virtual_network_interface block must be specified in primary_network_attachment", at `b`'s range.
   */
  lemma NoVirtualNetworkInterfaceReported(b: Block, env: Env)
    requires !AnyOfType(b.body.blocks, "virtual_network_interface")
    ensures InterfacesIssues(b, env) == Ok([Issue(RuleName, NoInterface, b.defRange)])
  {
    AnyOfTypeIff(b.body.blocks, "virtual_network_interface");
    ForEachPass(b.body.blocks, env, InterfaceIssues);
  }

  /** One nested block: a `primary_network_attachment` block needs `name` and a `virtual_network_interface` block. */
  function AttachmentIssues(b: Block, env: Env): Outcome {
    if b.typ != "primary_network_attachment" then Pass else
    var o := Ok(Require(RuleName, b, "name", AttachmentNameMissing));
    Then(o, InterfacesIssues(b, env))
  }

  method CheckAttachment(runner: Runner, b: Block)
    modifies runner
    ensures Produced(runner, old(runner.issues), None, AttachmentIssues(b, runner.env))
  {
    if b.typ != "primary_network_attachment" {
      return;
    }
    CheckRequire(runner, RuleName, b, "name", AttachmentNameMissing);
    ghost var done := Ok(Require(RuleName, b, "name", AttachmentNameMissing));
    ghost var step := InterfacesIssues(b, runner.env);
    CheckInterfaces(runner, b);
    Extend(old(runner.issues), done, step);
  }

  /** The `primary_network_attachment` loop. */
  function AttachmentsIssues(b: Block, env: Env): Outcome {
    ForEach(b.body.blocks, env, AttachmentIssues)
  }

  /** The loop over the blocks nested in `b`, acting on the `primary_network_attachment` blocks. */
  method CheckAttachments(runner: Runner, b: Block)
    modifies runner
    ensures Produced(runner, old(runner.issues), None, AttachmentsIssues(b, runner.env))
  {
    var blocks := b.body.blocks;
    var i := 0;
    while i < |blocks|
      invariant 0 <= i <= |blocks|
      invariant Produced(runner, old(runner.issues), None, ForEach(blocks[..i], runner.env, AttachmentIssues))
    {
      ForEachAppend(old(runner.issues), blocks, i, runner.env, AttachmentIssues);
      var blk := blocks[i];
      CheckAttachment(runner, blk);
      i := i + 1;
    }
    assert blocks[..i] == blocks;
  }

  predicate AttachmentIssuesClean(b: Block, env: Env) {
    b.typ == "primary_network_attachment" ==>
      Has(b, "name")
      && InterfacesIssuesClean(b, env)
  }

  lemma AttachmentIssuesPasses(b: Block, env: Env)
    ensures AttachmentIssues(b, env) == Pass <==> AttachmentIssuesClean(b, env)
  {
    if b.typ == "primary_network_attachment" {
      var o0 := Ok(Require(RuleName, b, "name", AttachmentNameMissing));
      var s1 := InterfacesIssues(b, env);
      ThenPass(o0, s1);
      InterfacesIssuesPasses(b, env);
    }
  }

  predicate AttachmentsIssuesClean(b: Block, env: Env) {
    (forall i :: 0 <= i < |b.body.blocks| ==> AttachmentIssuesClean(b.body.blocks[i], env))
  }

  lemma AttachmentsIssuesPasses(b: Block, env: Env)
    ensures AttachmentsIssues(b, env) == Pass <==> AttachmentsIssuesClean(b, env)
  {
    ForEachPass(b.body.blocks, env, AttachmentIssues);
    forall i | 0 <= i < |b.body.blocks| {
      AttachmentIssuesPasses(b.body.blocks[i], env);
    }
  }

  /**
   * Each `primary_network_attachment` block without a `virtual_network_interface` block draws
   * "virtual_network_interface block must be specified in primary_network_attachment" at its own range.
   */
  lemma PrimaryNetworkAttachmentWithoutVirtualNetworkInterfaceReported(b: Block, env: Env, k: nat)
    requires k < |b.body.blocks| && b.body.blocks[k].typ == "primary_network_attachment"
    requires !AnyOfType(b.body.blocks[k].body.blocks, "virtual_network_interface")
    ensures Issue(RuleName, NoInterface, b.body.blocks[k].defRange) in AttachmentsIssues(b, env).issues
  {
    NoVirtualNetworkInterfaceReported(b.body.blocks[k], env);
    forall i | 0 <= i < |b.body.blocks|
      ensures AttachmentIssues(b.body.blocks[i], env).err.None?
    {
      ForEachNoError(b.body.blocks[i].body.blocks, env, InterfaceIssues);
    }
    ForEachNoError(b.body.blocks, env, AttachmentIssues);
    ForEachIncludes(b.body.blocks, env, AttachmentIssues, k);
  }

  /** What `Check` does with one resource block. */
  function ResourceIssues(b: Block, env: Env): Outcome {
    var o := Ok(Missing(RuleName, b, RequiredAttrs, AttributeMustBeSpecified));
    var o := Then(o, NameLength(RuleName, b, env, "name", NameEmpty, NameTooLong));
    var o := Then(o, Enum(RuleName, b, env, "profile", Profiles, ProfileMsg));
    var o := Then(o, Valid(RuleName, b, env, "zone", IsValidZone, InvalidZone));
    Then(o, AttachmentsIssues(b, env))
  }

  method CheckResource(runner: Runner, b: Block) returns (err: Option<Error>)
    modifies runner
    ensures Produced(runner, old(runner.issues), err, ResourceIssues(b, runner.env))
  {
    err := None;
    CheckRequired(runner, RuleName, b, RequiredAttrs, AttributeMustBeSpecified);
    ghost var done := Ok(Missing(RuleName, b, RequiredAttrs, AttributeMustBeSpecified));
    ghost var step := NameLength(RuleName, b, runner.env, "name", NameEmpty, NameTooLong);
    err := CheckNameLength(runner, RuleName, b, "name", NameEmpty, NameTooLong);
    Extend(old(runner.issues), done, step);
    if err.Some? {
      return;
    }
    done := Then(done, step);
    step := Enum(RuleName, b, runner.env, "profile", Profiles, ProfileMsg);
    err := CheckEnum(runner, RuleName, b, "profile", Profiles, ProfileMsg);
    Extend(old(runner.issues), done, step);
    if err.Some? {
      return;
    }
    done := Then(done, step);
    step := Valid(RuleName, b, runner.env, "zone", IsValidZone, InvalidZone);
    err := CheckValid(runner, RuleName, b, "zone", IsValidZone, InvalidZone);
    Extend(old(runner.issues), done, step);
    if err.Some? {
      return;
    }
    done := Then(done, step);
    step := AttachmentsIssues(b, runner.env);
    CheckAttachments(runner, b);
    err := None;
    Extend(old(runner.issues), done, step);
  }

  method Check(runner: Runner) returns (err: Option<Error>)
    modifies runner
    ensures Produced(runner, old(runner.issues), err, RunRule(runner.content, ResourceType, runner.env, ResourceIssues))
  {
    var resources := runner.GetResourceContent(ResourceType);
    if resources.Failure? {
      return Some(resources.error);
    }
    var blocks := resources.value;
    var i := 0;
    while i < |blocks|
      invariant 0 <= i <= |blocks|
      invariant Produced(runner, old(runner.issues), None, ForEach(blocks[..i], runner.env, ResourceIssues))
    {
      ForEachStep(blocks, i, runner.env, ResourceIssues);
      err := CheckResource(runner, blocks[i]);
      Extend(old(runner.issues), ForEach(blocks[..i], runner.env, ResourceIssues), ResourceIssues(blocks[i], runner.env));
      if err.Some? {
        ForEachStopsAtError(blocks, i + 1, runner.env, ResourceIssues);
        return;
      }
      i := i + 1;
    }
    assert blocks[..i] == blocks;
    return None;
  }

  /** What a resource must satisfy to draw no issue and no error. */
  predicate Clean(b: Block, env: Env) {
    (forall a :: a in RequiredAttrs ==> Has(b, a))
    && NameOk(b, env, "name")
    && StrIn(b, env, "profile", Profiles)
    && StrIs(b, env, "zone", IsValidZone)
    && AttachmentsIssuesClean(b, env)
  }

  /** A resource draws no issue and no error exactly when it is clean. */
  lemma Passes(b: Block, env: Env)
    ensures ResourceIssues(b, env) == Pass <==> Clean(b, env)
  {
    var o0 := Ok(Missing(RuleName, b, RequiredAttrs, AttributeMustBeSpecified));
    var s1 := NameLength(RuleName, b, env, "name", NameEmpty, NameTooLong);
    ThenPass(o0, s1);
    var o1 := Then(o0, s1);
    var s2 := Enum(RuleName, b, env, "profile", Profiles, ProfileMsg);
    ThenPass(o1, s2);
    var o2 := Then(o1, s2);
    var s3 := Valid(RuleName, b, env, "zone", IsValidZone, InvalidZone);
    ThenPass(o2, s3);
    var o3 := Then(o2, s3);
    var s4 := AttachmentsIssues(b, env);
    ThenPass(o3, s4);
    MissingNone(RuleName, b, RequiredAttrs, AttributeMustBeSpecified);
    NameLengthPass(RuleName, b, env, "name", NameEmpty, NameTooLong);
    EnumPass(RuleName, b, env, "profile", Profiles, ProfileMsg);
    ValidPass(RuleName, b, env, "zone", IsValidZone, InvalidZone);
    AttachmentsIssuesPasses(b, env);
  }
}
