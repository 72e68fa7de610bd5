/** rules/rule_ibm_is_vpn_gateway_connection.go */
module VpnGatewayConnection {
  import opened Wrappers
  import opened Hcl
  import opened Tflint
  import opened Checks

  const RuleName := "ibm_is_vpn_gateway_connection"
  const ResourceType := "ibm_is_vpn_gateway_connection"
  const RequiredAttrs := ["name", "vpn_gateway", "preshared_key"]
  const PeerAttrs := ["address", "cidrs"]
  const PeerTemplate := Template("`", "` attribute must be specified in peer block")
  const PeerAddressMsg := Text("invalid peer address format. Must be a valid IPv4 address")
  const DpdFields := ["interval", "timeout", "action"]
  const DpdTemplate := Template("`", "` must be specified when dead_peer_detection is configured")
  const DpdActions: set<GoString> := {"restart", "clear", "hold", "none"}
  const DpdActionMsg := Text("action must be one of: restart, clear, hold, none")

  /**
   * `validateDPD`, reached only when `dead_peer_detection` is present: the
   * three fields are required of the resource, and `action` comes from a
   * fixed set.
   */
  function DpdIssues(b: Block, env: Env): Outcome {
    if !Has(b, "dead_peer_detection") then Pass
    else Then(Ok(Missing(RuleName, b, DpdFields, DpdTemplate)), Enum(RuleName, b, env, "action", DpdActions, DpdActionMsg))
  }

  method ValidateDPD(runner: Runner, b: Block) returns (err: Option<Error>)
    modifies runner
    ensures Produced(runner, old(runner.issues), err, DpdIssues(b, runner.env))
  {
    err := None;
    if "dead_peer_detection" in b.body.attributes {
      CheckRequired(runner, RuleName, b, DpdFields, DpdTemplate);
      ghost var done := Ok(Missing(RuleName, b, DpdFields, DpdTemplate));
      err := CheckEnum(runner, RuleName, b, "action", DpdActions, DpdActionMsg);
      Extend(old(runner.issues), done, Enum(RuleName, b, runner.env, "action", DpdActions, DpdActionMsg));
    }
  }

  predicate DpdClean(b: Block, env: Env) {
    Has(b, "dead_peer_detection") ==>
      && (forall a :: a in DpdFields ==> Has(b, a))
      && StrIn(b, env, "action", DpdActions)
  }

  lemma DpdPasses(b: Block, env: Env)
    ensures DpdIssues(b, env) == Pass <==> DpdClean(b, env)
  {
    if Has(b, "dead_peer_detection") {
      ThenPass(Ok(Missing(RuleName, b, DpdFields, DpdTemplate)), Enum(RuleName, b, env, "action", DpdActions, DpdActionMsg));
      MissingNone(RuleName, b, DpdFields, DpdTemplate);
      EnumPass(RuleName, b, env, "action", DpdActions, DpdActionMsg);
    }
  }

  /** `validatePeerBlock`: a `peer` block needs `address` and `cidrs`, the address an IPv4 one. */
  function PeerIssues(b: Block, env: Env): Outcome {
    if b.typ != "peer" then Pass else
    var o := Ok(Missing(RuleName, b, PeerAttrs, PeerTemplate));
    Then(o, IPv4(RuleName, b, env, "address", PeerAddressMsg))
  }

  method ValidatePeerBlock(runner: Runner, b: Block) returns (err: Option<Error>)
    modifies runner
    ensures Produced(runner, old(runner.issues), err, PeerIssues(b, runner.env))
  {
    if b.typ != "peer" {
      return None;
    }
    err := None;
    CheckRequired(runner, RuleName, b, PeerAttrs, PeerTemplate);
    ghost var done := Ok(Missing(RuleName, b, PeerAttrs, PeerTemplate));
    ghost var step := IPv4(RuleName, b, runner.env, "address", PeerAddressMsg);
    err := CheckIPv4(runner, RuleName, b, "address", PeerAddressMsg);
    Extend(old(runner.issues), done, step);
  }

  /** The `peer` loop. */
  function PeersIssues(b: Block, env: Env): Outcome {
    ForEach(b.body.blocks, env, PeerIssues)
  }

  /** The loop over the blocks nested in `b`, acting on the `peer` blocks. */
  method CheckPeers(runner: Runner, b: Block) returns (err: Option<Error>)
    modifies runner
    ensures Produced(runner, old(runner.issues), err, PeersIssues(b, runner.env))
  {
    var blocks := b.body.blocks;
    var i := 0;
    while i < |blocks|
      invariant 0 <= i <= |blocks|
      invariant Produced(runner, old(runner.issues), None, ForEach(blocks[..i], runner.env, PeerIssues))
    {
      err := CheckPeersStep(runner, blocks, i, old(runner.issues));
      if err.Some? {
        ForEachStopsAtError(blocks, i + 1, runner.env, PeerIssues);
        return;
      }
      i := i + 1;
    }
    assert blocks[..i] == blocks;
    return None;
  }

  /** One iteration of the `peer` loop. */
  method CheckPeersStep(runner: Runner, blocks: seq<Block>, i: nat, ghost before: seq<Issue>) returns (err: Option<Error>)
    requires i < |blocks|
    requires Produced(runner, before, None, ForEach(blocks[..i], runner.env, PeerIssues))
    modifies runner
    ensures Produced(runner, before, err, ForEach(blocks[..i + 1], runner.env, PeerIssues))
  {
    ForEachStep(blocks, i, runner.env, PeerIssues);
    err := ValidatePeerBlock(runner, blocks[i]);
    Extend(before, ForEach(blocks[..i], runner.env, PeerIssues), PeerIssues(blocks[i], runner.env));
  }

  predicate PeerIssuesClean(b: Block, env: Env) {
    b.typ == "peer" ==>
      (forall a :: a in PeerAttrs ==> Has(b, a))
      && IPv4Ok(b, env, "address")
  }

  lemma PeerIssuesPasses(b: Block, env: Env)
    ensures PeerIssues(b, env) == Pass <==> PeerIssuesClean(b, env)
  {
    if b.typ == "peer" {
      var o0 := Ok(Missing(RuleName, b, PeerAttrs, PeerTemplate));
      var s1 := IPv4(RuleName, b, env, "address", PeerAddressMsg);
      ThenPass(o0, s1);
      MissingNone(RuleName, b, PeerAttrs, PeerTemplate);
      IPv4Pass(RuleName, b, env, "address", PeerAddressMsg);
    }
  }

  predicate PeersIssuesClean(b: Block, env: Env) {
    (forall i :: 0 <= i < |b.body.blocks| ==> PeerIssuesClean(b.body.blocks[i], env))
  }

  lemma PeersIssuesPasses(b: Block, env: Env)
    ensures PeersIssues(b, env) == Pass <==> PeersIssuesClean(b, env)
  {
    ForEachPass(b.body.blocks, env, PeerIssues);
    forall i | 0 <= i < |b.body.blocks| {
      PeerIssuesPasses(b.body.blocks[i], env);
    }
  }

  /** What `Check` does with one resource block. */
  function ResourceIssues(b: Block, env: Env): Outcome {
    var o := Ok(Missing(RuleName, b, RequiredAttrs, AttributeMustBeSpecified));
    var o := Then(o, PeersIssues(b, env));
    var o := Then(o, NameLength(RuleName, b, env, "name", NameEmpty, NameTooLong));
    Then(o, DpdIssues(b, env))
  }

  method CheckResource(runner: Runner, b: Block) returns (err: Option<Error>)
    modifies runner
    ensures Produced(runner, old(runner.issues), err, ResourceIssues(b, runner.env))
  {
    err := None;
    CheckRequired(runner, RuleName, b, RequiredAttrs, AttributeMustBeSpecified);
    ghost var done := Ok(Missing(RuleName, b, RequiredAttrs, AttributeMustBeSpecified));
    ghost var step := PeersIssues(b, runner.env);
    err := CheckPeers(runner, b);
    Extend(old(runner.issues), done, step);
    if err.Some? {
      return;
    }
    done := Then(done, step);
    step := NameLength(RuleName, b, runner.env, "name", NameEmpty, NameTooLong);
    err := CheckNameLength(runner, RuleName, b, "name", NameEmpty, NameTooLong);
    Extend(old(runner.issues), done, step);
    if err.Some? {
      return;
    }
    done := Then(done, step);
    step := DpdIssues(b, runner.env);
    err := ValidateDPD(runner, b);
    Extend(old(runner.issues), done, step);
  }

  method Check(runner: Runner) returns (err: Option<Error>)
    modifies runner
    ensures Produced(runner, old(runner.issues), err, RunRule(runner.content, ResourceType, runner.env, ResourceIssues))
  {
    var resources := runner.GetResourceContent(ResourceType);
    if resources.Failure? {
      return Some(resources.error);
    }
    var blocks := resources.value;
    var i := 0;
    while i < |blocks|
      invariant 0 <= i <= |blocks|
      invariant Produced(runner, old(runner.issues), None, ForEach(blocks[..i], runner.env, ResourceIssues))
    {
      ForEachStep(blocks, i, runner.env, ResourceIssues);
      err := CheckResource(runner, blocks[i]);
      Extend(old(runner.issues), ForEach(blocks[..i], runner.env, ResourceIssues), ResourceIssues(blocks[i], runner.env));
      if err.Some? {
        ForEachStopsAtError(blocks, i + 1, runner.env, ResourceIssues);
        return;
      }
      i := i + 1;
    }
    assert blocks[..i] == blocks;
    return None;
  }

  /** What a resource must satisfy to draw no issue and no error. */
  predicate Clean(b: Block, env: Env) {
    (forall a :: a in RequiredAttrs ==> Has(b, a))
    && PeersIssuesClean(b, env)
    && NameOk(b, env, "name")
    && DpdClean(b, env)
  }

  /** A resource draws no issue and no error exactly when it is clean. */
  lemma Passes(b: Block, env: Env)
    ensures ResourceIssues(b, env) == Pass <==> Clean(b, env)
  {
    var o0 := Ok(Missing(RuleName, b, RequiredAttrs, AttributeMustBeSpecified));
    var s1 := PeersIssues(b, env);
    ThenPass(o0, s1);
    var o1 := Then(o0, s1);
    var s2 := NameLength(RuleName, b, env, "name", NameEmpty, NameTooLong);
    ThenPass(o1, s2);
    var o2 := Then(o1, s2);
    var s3 := DpdIssues(b, env);
    ThenPass(o2, s3);
    MissingNone(RuleName, b, RequiredAttrs, AttributeMustBeSpecified);
    PeersIssuesPasses(b, env);
    NameLengthPass(RuleName, b, env, "name", NameEmpty, NameTooLong);
    DpdPasses(b, env);
  }

  /**
   * Without `dead_peer_detection` neither the three fields nor `action` are
   * looked at, so a bad `action` then goes unreported.
   */
  lemma DpdOnlyWhenConfigured(b: Block, env: Env)
    requires !Has(b, "dead_peer_detection")
    ensures DpdIssues(b, env) == Pass
  {
  }

  /** With `dead_peer_detection`, each missing field is reported once, then a bad `action`. */
  lemma DpdFieldsReported(b: Block, env: Env)
    requires Has(b, "dead_peer_detection") && Has(b, "action") && env.str(ExprOf(b, "action")).Success?
    ensures DpdIssues(b, env)
         == Ok(Missing(RuleName, b, DpdFields, DpdTemplate)
               + if env.str(ExprOf(b, "action")).value in DpdActions then [] else [Issue(RuleName, DpdActionMsg, ExprOf(b, "action").range)])
  {
  }
}
