/** rules/rule_ibm_is_network_acl_rule.go */
module NetworkAclRule {
  import opened Wrappers
  import opened Hcl
  import opened Tflint
  import opened Checks

  const RuleName := "ibm_is_network_acl_rule"
  const ResourceType := "ibm_is_network_acl_rule"
  const RequiredAttrs := ["network_acl", "name", "action", "source", "destination", "direction"]
  const Actions: set<GoString> := {"allow", "deny"}
  const Directions: set<GoString> := {"inbound", "outbound"}
  const PortAttrs := ["port_min", "port_max", "source_port_min", "source_port_max"]

  const ActionMsg := Text("action must be either 'allow' or 'deny'")
  const DirectionMsg := Text("direction must be either 'inbound' or 'outbound'")
  const IcmpTypeMsg := Text("ICMP type must be between 0 and 254")
  const IcmpCodeMsg := Text("ICMP code must be between 0 and 255")
  const OnlyOneProtocol := Text("only one protocol block (icmp, tcp, or udp) can be specified")

  function PortRangeMsg(protocol: string): Message {
    Format("", protocol, " port must be between 1 and 65535")
  }

  function PortOrderMsg(protocol: string): Message {
    Format("", protocol, " port_max cannot be less than port_min")
  }

  /** `validateICMPBlock`: type and code are checked only when they evaluate. */
  function IcmpIssues(blk: Block, env: Env): seq<Issue> {
    IntRangeIfEvaluates(RuleName, blk, env, "type", 0, 254, IcmpTypeMsg)
      + IntRangeIfEvaluates(RuleName, blk, env, "code", 0, 255, IcmpCodeMsg)
  }

  /** The range issues of the `portAttrs` loop of `validatePortBlock`. */
  function PortRangeIssues(blk: Block, env: Env, protocol: string, attrs: seq<string>): seq<Issue>
    decreases |attrs|
  {
    if attrs == [] then []
    else
      PortRangeIssues(blk, env, protocol, attrs[..|attrs| - 1])
        + IntRangeIfEvaluates(RuleName, blk, env, attrs[|attrs| - 1], 1, 65535, PortRangeMsg(protocol))
  }

  /**
   * The value `runner.EvaluateExpr` leaves in a Go `int` whose error is
   * ignored: the evaluated value, or the zero it was declared with.
   */
  function IntOrZero(b: Block, env: Env, attr: string): int {
    if !Has(b, attr) then 0
    else match env.num(ExprOf(b, attr))
      case Success(v) => v
      case Failure(_) => 0
  }

  /** The consistency test of `validatePortBlock`, which ignores evaluation errors. */
  function PortOrderIssues(blk: Block, env: Env, protocol: string): seq<Issue> {
    if Has(blk, "port_max") && IntOrZero(blk, env, "port_max") < IntOrZero(blk, env, "port_min")
    then [Issue(RuleName, PortOrderMsg(protocol), ExprOf(blk, "port_max").range)]
    else []
  }

  /** `validatePortBlock`. */
  function PortIssues(blk: Block, env: Env, protocol: string): seq<Issue> {
    PortRangeIssues(blk, env, protocol, PortAttrs) + PortOrderIssues(blk, env, protocol)
  }

  /** The body of the `switch block.Type` loop; the validators never return an error. */
  function ProtocolBlock(blk: Block, env: Env): Outcome {
    if blk.typ == "icmp" then Ok(IcmpIssues(blk, env))
    else if blk.typ == "tcp" then Ok(PortIssues(blk, env, "TCP"))
    else if blk.typ == "udp" then Ok(PortIssues(blk, env, "UDP"))
    else Pass
  }

  /** `protocolCount`: how many of the three kinds occur among the nested blocks. */
  function ProtocolCount(b: Block): nat {
    (if HasBlock(b, "icmp") then 1 else 0)
      + (if HasBlock(b, "tcp") then 1 else 0)
      + (if HasBlock(b, "udp") then 1 else 0)
  }

  /** The required-attribute loop and the action and direction checks. */
  function AttributeIssues(b: Block, env: Env): Outcome {
    var o := Ok(Missing(RuleName, b, RequiredAttrs, AttributeMustBeSpecified));
    var o := Then(o, Enum(RuleName, b, env, "action", Actions, ActionMsg));
    Then(o, Enum(RuleName, b, env, "direction", Directions, DirectionMsg))
  }

  /** The protocol block loop and the protocol count test. */
  function ProtocolIssues(b: Block, env: Env): Outcome {
    Then(ForEach(b.body.blocks, env, ProtocolBlock),
         Ok(if ProtocolCount(b) > 1 then [Issue(RuleName, OnlyOneProtocol, b.defRange)] else []))
  }

  /** What `Check` does with one resource block. */
  function ResourceIssues(b: Block, env: Env): Outcome {
    Then(AttributeIssues(b, env), ProtocolIssues(b, env))
  }

  /** The `portAttrs` loop of `validatePortBlock`. */
  method CheckPortRanges(runner: Runner, blk: Block, protocol: string)
    modifies runner
    ensures runner.issues == old(runner.issues) + PortRangeIssues(blk, runner.env, protocol, PortAttrs)
  {
    var i := 0;
    while i < |PortAttrs|
      invariant 0 <= i <= |PortAttrs|
      invariant runner.issues == old(runner.issues) + PortRangeIssues(blk, runner.env, protocol, PortAttrs[..i])
    {
      PortRangeStep(blk, runner.env, protocol, PortAttrs, i);
      CheckIntRangeIfEvaluates(runner, RuleName, blk, PortAttrs[i], 1, 65535, PortRangeMsg(protocol));
      i := i + 1;
    }
    assert PortAttrs[..i] == PortAttrs;
  }

  /** One more iteration of the `portAttrs` loop. */
  lemma PortRangeStep(blk: Block, env: Env, protocol: string, attrs: seq<string>, i: nat)
    requires i < |attrs|
    ensures PortRangeIssues(blk, env, protocol, attrs[..i + 1])
         == PortRangeIssues(blk, env, protocol, attrs[..i])
            + IntRangeIfEvaluates(RuleName, blk, env, attrs[i], 1, 65535, PortRangeMsg(protocol))
  {
    assert attrs[..i + 1][..i] == attrs[..i];
  }

  /** The `port_max` against `port_min` test of `validatePortBlock`. */
  method CheckPortOrder(runner: Runner, blk: Block, protocol: string)
    modifies runner
    ensures runner.issues == old(runner.issues) + PortOrderIssues(blk, runner.env, protocol)
  {
    var minPort, maxPort := 0, 0;
    if "port_min" in blk.body.attributes {
      var r := runner.EvaluateInt(blk.body.attributes["port_min"].expr);
      if r.Success? {
        minPort := r.value;
      }
    }
    if "port_max" in blk.body.attributes {
      var x := blk.body.attributes["port_max"].expr;
      var r := runner.EvaluateInt(x);
      if r.Success? {
        maxPort := r.value;
      }
      if maxPort < minPort {
        runner.EmitIssue(RuleName, PortOrderMsg(protocol), x.range);
      }
    }
  }

  method ValidatePortBlock(runner: Runner, blk: Block, protocol: string)
    modifies runner
    ensures runner.issues == old(runner.issues) + PortIssues(blk, runner.env, protocol)
  {
    CheckPortRanges(runner, blk, protocol);
    CheckPortOrder(runner, blk, protocol);
  }

  method ValidateIcmpBlock(runner: Runner, blk: Block)
    modifies runner
    ensures runner.issues == old(runner.issues) + IcmpIssues(blk, runner.env)
  {
    CheckIntRangeIfEvaluates(runner, RuleName, blk, "type", 0, 254, IcmpTypeMsg);
    CheckIntRangeIfEvaluates(runner, RuleName, blk, "code", 0, 255, IcmpCodeMsg);
  }

  method CheckAttributes(runner: Runner, b: Block) returns (err: Option<Error>)
    modifies runner
    ensures Produced(runner, old(runner.issues), err, AttributeIssues(b, runner.env))
  {
    CheckRequired(runner, RuleName, b, RequiredAttrs, AttributeMustBeSpecified);
    ghost var done := Ok(Missing(RuleName, b, RequiredAttrs, AttributeMustBeSpecified));
    ghost var step := Enum(RuleName, b, runner.env, "action", Actions, ActionMsg);
    err := CheckEnum(runner, RuleName, b, "action", Actions, ActionMsg);
    Extend(old(runner.issues), done, step);
    done := Then(done, step);
    if err.Some? {
      return;
    }
    step := Enum(RuleName, b, runner.env, "direction", Directions, DirectionMsg);
    err := CheckEnum(runner, RuleName, b, "direction", Directions, DirectionMsg);
    Extend(old(runner.issues), done, step);
  }

  /** One iteration of the `switch block.Type` loop. */
  method ValidateProtocolBlock(runner: Runner, blk: Block)
    modifies runner
    ensures runner.issues == old(runner.issues) + ProtocolBlock(blk, runner.env).issues
  {
    if blk.typ == "icmp" {
      ValidateIcmpBlock(runner, blk);
    } else if blk.typ == "tcp" {
      ValidatePortBlock(runner, blk, "TCP");
    } else if blk.typ == "udp" {
      ValidatePortBlock(runner, blk, "UDP");
    }
  }

  /** The `switch block.Type` loop, also reporting which protocol kinds it met. */
  method ValidateProtocolBlocks(runner: Runner, blocks: seq<Block>) returns (hasIcmp: bool, hasTcp: bool, hasUdp: bool)
    modifies runner
    ensures runner.issues == old(runner.issues) + ForEach(blocks, runner.env, ProtocolBlock).issues
    ensures ForEach(blocks, runner.env, ProtocolBlock).err.None?
    ensures hasIcmp == AnyOfType(blocks, "icmp")
    ensures hasTcp == AnyOfType(blocks, "tcp")
    ensures hasUdp == AnyOfType(blocks, "udp")
  {
    hasIcmp, hasTcp, hasUdp := false, false, false;
    var i := 0;
    while i < |blocks|
      invariant 0 <= i <= |blocks|
      invariant hasIcmp == AnyOfType(blocks[..i], "icmp")
      invariant hasTcp == AnyOfType(blocks[..i], "tcp")
      invariant hasUdp == AnyOfType(blocks[..i], "udp")
      invariant Produced(runner, old(runner.issues), None, ForEach(blocks[..i], runner.env, ProtocolBlock))
    {
      ForEachAppend(old(runner.issues), blocks, i, runner.env, ProtocolBlock);
      AnyOfTypeStep(blocks, i, "icmp");
      AnyOfTypeStep(blocks, i, "tcp");
      AnyOfTypeStep(blocks, i, "udp");
      var blk := blocks[i];
      ValidateProtocolBlock(runner, blk);
      hasIcmp := hasIcmp || blk.typ == "icmp";
      hasTcp := hasTcp || blk.typ == "tcp";
      hasUdp := hasUdp || blk.typ == "udp";
      i := i + 1;
    }
    assert blocks[..i] == blocks;
  }

  method CheckProtocols(runner: Runner, b: Block)
    modifies runner
    ensures Produced(runner, old(runner.issues), None, ProtocolIssues(b, runner.env))
  {
    var hasIcmp, hasTcp, hasUdp := ValidateProtocolBlocks(runner, b.body.blocks);
    var protocolCount := 0;
    if hasIcmp {
      protocolCount := protocolCount + 1;
    }
    if hasTcp {
      protocolCount := protocolCount + 1;
    }
    if hasUdp {
      protocolCount := protocolCount + 1;
    }
    ghost var step := Ok(if ProtocolCount(b) > 1 then [Issue(RuleName, OnlyOneProtocol, b.defRange)] else []);
    if protocolCount > 1 {
      runner.EmitIssue(RuleName, OnlyOneProtocol, b.defRange);
    }
    Extend(old(runner.issues), ForEach(b.body.blocks, runner.env, ProtocolBlock), step);
  }

  method CheckResource(runner: Runner, b: Block) returns (err: Option<Error>)
    modifies runner
    ensures Produced(runner, old(runner.issues), err, ResourceIssues(b, runner.env))
  {
    err := CheckAttributes(runner, b);
    if err.Some? {
      return;
    }
    CheckProtocols(runner, b);
    Extend(old(runner.issues), AttributeIssues(b, runner.env), ProtocolIssues(b, runner.env));
  }

  method Check(runner: Runner) returns (err: Option<Error>)
    modifies runner
    ensures Produced(runner, old(runner.issues), err, RunRule(runner.content, ResourceType, runner.env, ResourceIssues))
  {
    var resources := runner.GetResourceContent(ResourceType);
    if resources.Failure? {
      return Some(resources.error);
    }
    var blocks := resources.value;
    var i := 0;
    while i < |blocks|
      invariant 0 <= i <= |blocks|
      invariant Produced(runner, old(runner.issues), None, ForEach(blocks[..i], runner.env, ResourceIssues))
    {
      ForEachStep(blocks, i, runner.env, ResourceIssues);
      ghost var before := runner.issues;
      err := CheckResource(runner, blocks[i]);
      Extend(old(runner.issues), ForEach(blocks[..i], runner.env, ResourceIssues), ResourceIssues(blocks[i], runner.env));
      if err.Some? {
        ForEachStopsAtError(blocks, i + 1, runner.env, ResourceIssues);
        return;
      }
      i := i + 1;
    }
    assert blocks[..i] == blocks;
    return None;
  }

  // ---------------------------------------------------------------------------
  // Properties.

  const ProtocolKinds: set<string> := {"icmp", "tcp", "udp"}

  /** What a nested block must satisfy to draw no issue. */
  predicate ProtocolBlockClean(blk: Block, env: Env) {
    && (blk.typ == "icmp" ==>
          IntInIfEvaluates(blk, env, "type", 0, 254)
          && IntInIfEvaluates(blk, env, "code", 0, 255))
    && (blk.typ in {"tcp", "udp"} ==>
          (forall a :: a in PortAttrs ==> IntInIfEvaluates(blk, env, a, 1, 65535))
          && (Has(blk, "port_max") ==> IntOrZero(blk, env, "port_min") <= IntOrZero(blk, env, "port_max")))
  }

  /** What a resource must satisfy to draw no issue and no error. */
  predicate Clean(b: Block, env: Env) {
    && (forall a :: a in RequiredAttrs ==> Has(b, a))
    && StrIn(b, env, "action", Actions)
    && StrIn(b, env, "direction", Directions)
    && (forall i :: 0 <= i < |b.body.blocks| ==> ProtocolBlockClean(b.body.blocks[i], env))
    && ProtocolCount(b) <= 1
  }

  /** The port range loop reports exactly the listed attributes that evaluate out of 1..65535. */
  lemma {:induction false} PortRangeIssuesIff(blk: Block, env: Env, protocol: string, attrs: seq<string>, iss: Issue)
    ensures iss in PortRangeIssues(blk, env, protocol, attrs)
        <==> && iss.rule == RuleName && iss.message == PortRangeMsg(protocol)
             && exists a :: a in attrs && Has(blk, a) && iss.range == ExprOf(blk, a).range
                         && env.num(ExprOf(blk, a)).Success? && !(1 <= env.num(ExprOf(blk, a)).value <= 65535)
    decreases |attrs|
  {
    if attrs != [] {
      var init := attrs[..|attrs| - 1];
      var last := attrs[|attrs| - 1];
      PortRangeIssuesIff(blk, env, protocol, init, iss);
      assert attrs == init + [last];
      if iss in IntRangeIfEvaluates(RuleName, blk, env, last, 1, 65535, PortRangeMsg(protocol)) {
        assert last in attrs;
      }
      if iss.rule == RuleName && iss.message == PortRangeMsg(protocol) && Has(blk, last)
         && iss.range == ExprOf(blk, last).range && env.num(ExprOf(blk, last)).Success?
         && !(1 <= env.num(ExprOf(blk, last)).value <= 65535)
      {
        assert iss == Issue(RuleName, PortRangeMsg(protocol), ExprOf(blk, last).range);
      }
    }
  }

  /** The port range loop is silent exactly when every listed attribute is in 1..65535 or does not evaluate. */
  lemma {:induction false} PortRangeNone(blk: Block, env: Env, protocol: string, attrs: seq<string>)
    ensures PortRangeIssues(blk, env, protocol, attrs) == []
        <==> forall a :: a in attrs ==> IntInIfEvaluates(blk, env, a, 1, 65535)
    decreases |attrs|
  {
    if attrs != [] {
      var init := attrs[..|attrs| - 1];
      var last := attrs[|attrs| - 1];
      PortRangeNone(blk, env, protocol, init);
      IntRangeIfEvaluatesIff(RuleName, blk, env, last, 1, 65535, PortRangeMsg(protocol));
      assert attrs == init + [last];
      assert PortRangeIssues(blk, env, protocol, attrs)
          == PortRangeIssues(blk, env, protocol, init)
             + IntRangeIfEvaluates(RuleName, blk, env, last, 1, 65535, PortRangeMsg(protocol));
    }
  }

  /** A nested block draws nothing exactly when it is clean. */
  lemma ProtocolBlockPass(blk: Block, env: Env)
    ensures ProtocolBlock(blk, env) == Pass <==> ProtocolBlockClean(blk, env)
  {
    PortRangeNone(blk, env, "TCP", PortAttrs);
    PortRangeNone(blk, env, "UDP", PortAttrs);
    IntRangeIfEvaluatesIff(RuleName, blk, env, "type", 0, 254, IcmpTypeMsg);
    IntRangeIfEvaluatesIff(RuleName, blk, env, "code", 0, 255, IcmpCodeMsg);
  }

  /** A resource draws no issue and no error exactly when it is clean. */
  lemma Passes(b: Block, env: Env)
    ensures ResourceIssues(b, env) == Pass <==> Clean(b, env)
  {
    var missing := Ok(Missing(RuleName, b, RequiredAttrs, AttributeMustBeSpecified));
    var action := Enum(RuleName, b, env, "action", Actions, ActionMsg);
    var direction := Enum(RuleName, b, env, "direction", Directions, DirectionMsg);
    ThenPass(missing, action);
    ThenPass(Then(missing, action), direction);
    ThenPass(AttributeIssues(b, env), ProtocolIssues(b, env));
    ThenPass(ForEach(b.body.blocks, env, ProtocolBlock),
             Ok(if ProtocolCount(b) > 1 then [Issue(RuleName, OnlyOneProtocol, b.defRange)] else []));
    MissingNone(RuleName, b, RequiredAttrs, AttributeMustBeSpecified);
    EnumPass(RuleName, b, env, "action", Actions, ActionMsg);
    EnumPass(RuleName, b, env, "direction", Directions, DirectionMsg);
    ForEachPass(b.body.blocks, env, ProtocolBlock);
    forall i | 0 <= i < |b.body.blocks| {
      ProtocolBlockPass(b.body.blocks[i], env);
    }
  }

  /** `protocolCount > 1` holds exactly when nested blocks of two different protocol kinds occur. */
  lemma ProtocolCountIff(b: Block)
    ensures ProtocolCount(b) > 1 <==>
      exists i, j :: 0 <= i < |b.body.blocks| && 0 <= j < |b.body.blocks|
        && b.body.blocks[i].typ in ProtocolKinds && b.body.blocks[j].typ in ProtocolKinds
        && b.body.blocks[i].typ != b.body.blocks[j].typ
  {
    var bs := b.body.blocks;
    AnyOfTypeIff(bs, "icmp");
    AnyOfTypeIff(bs, "tcp");
    AnyOfTypeIff(bs, "udp");
  }

  /**
   * The protocol validators never return an error: only the evaluation of
   * `action` or `direction` can end the check early.
   */
  lemma OnlyAttributesFail(b: Block, env: Env)
    ensures ResourceIssues(b, env).err == AttributeIssues(b, env).err
    ensures ResourceIssues(b, env).err.Some? <==>
      || (Has(b, "action") && env.str(ExprOf(b, "action")).Failure?)
      || (StrEvaluates(b, env, "action") && Has(b, "direction") && env.str(ExprOf(b, "direction")).Failure?)
  {
    ForEachNoError(b.body.blocks, env, ProtocolBlock);
  }

  /** No protocol block validator reports the protocol count message. */
  lemma ProtocolLoopAvoids(b: Block, env: Env)
    ensures forall iss :: iss in ForEach(b.body.blocks, env, ProtocolBlock).issues ==> iss.message != OnlyOneProtocol
  {
    forall i | 0 <= i < |b.body.blocks|
      ensures forall iss :: iss in ProtocolBlock(b.body.blocks[i], env).issues ==> iss.message != OnlyOneProtocol
    {
      var blk := b.body.blocks[i];
      forall iss | iss in ProtocolBlock(blk, env).issues
        ensures iss.message != OnlyOneProtocol
      {
        if blk.typ == "tcp" || blk.typ == "udp" {
          var p := if blk.typ == "tcp" then "TCP" else "UDP";
          if iss in PortRangeIssues(blk, env, p, PortAttrs) {
            PortRangeIssuesIff(blk, env, p, PortAttrs, iss);
          }
        }
      }
    }
    ForEachAvoids(b.body.blocks, env, ProtocolBlock, OnlyOneProtocol);
  }

  /** Neither the required-attribute loop nor the enum checks report the protocol count message. */
  lemma AttributesAvoid(b: Block, env: Env)
    ensures forall iss :: iss in AttributeIssues(b, env).issues ==> iss.message != OnlyOneProtocol
  {
    var missing := Ok(Missing(RuleName, b, RequiredAttrs, AttributeMustBeSpecified));
    var action := Enum(RuleName, b, env, "action", Actions, ActionMsg);
    var direction := Enum(RuleName, b, env, "direction", Directions, DirectionMsg);
    MissingFormats(RuleName, b, RequiredAttrs, AttributeMustBeSpecified);
    EnumReportsOnly(RuleName, b, env, "action", Actions, ActionMsg);
    EnumReportsOnly(RuleName, b, env, "direction", Directions, DirectionMsg);
    ThenIssues(missing, action);
    ThenIssues(Then(missing, action), direction);
  }

  /**
   * Once the attribute checks return no error, the resource carries the
   * "only one protocol block" issue once when two or more protocol kinds
   * occur and not at all otherwise.
   */
  lemma OnlyOneProtocolOnce(b: Block, env: Env)
    requires AttributeIssues(b, env).err.None?
    ensures multiset(ResourceIssues(b, env).issues)[Issue(RuleName, OnlyOneProtocol, b.defRange)]
         == if ProtocolCount(b) > 1 then 1 else 0
  {
    var x := Issue(RuleName, OnlyOneProtocol, b.defRange);
    var attrs := AttributeIssues(b, env).issues;
    var loop := ForEach(b.body.blocks, env, ProtocolBlock);
    var count: seq<Issue> := if ProtocolCount(b) > 1 then [x] else [];
    ProtocolLoopAvoids(b, env);
    AttributesAvoid(b, env);
    ForEachNoError(b.body.blocks, env, ProtocolBlock);
    assert ResourceIssues(b, env).issues == (attrs + loop.issues) + count;
    assert x !in attrs + loop.issues;
    CountAfter(attrs + loop.issues, count, x);
  }

  /** An ICMP type or code is reported exactly when it evaluates outside its range; a failed evaluation is skipped. */
  lemma IcmpReports(blk: Block, env: Env)
    ensures (exists iss :: iss in IcmpIssues(blk, env) && iss.message == IcmpTypeMsg)
        <==> !IntInIfEvaluates(blk, env, "type", 0, 254)
    ensures (exists iss :: iss in IcmpIssues(blk, env) && iss.message == IcmpCodeMsg)
        <==> !IntInIfEvaluates(blk, env, "code", 0, 255)
    ensures |IcmpIssues(blk, env)| <= 2
  {
    IntRangeIfEvaluatesIff(RuleName, blk, env, "type", 0, 254, IcmpTypeMsg);
    IntRangeIfEvaluatesIff(RuleName, blk, env, "code", 0, 255, IcmpCodeMsg);
  }

  /**
   * The port order test compares the evaluated values when both evaluate;
   * an absent or unevaluable bound compares as zero, so an unevaluable
   * `port_max` under a positive `port_min` is still reported.
   */
  lemma PortOrderReports(blk: Block, env: Env, protocol: string)
    ensures Has(blk, "port_min") && Has(blk, "port_max")
            && env.num(ExprOf(blk, "port_min")).Success? && env.num(ExprOf(blk, "port_max")).Success?
        ==> (PortOrderIssues(blk, env, protocol) != []
             <==> env.num(ExprOf(blk, "port_max")).value < env.num(ExprOf(blk, "port_min")).value)
    ensures Has(blk, "port_max") && env.num(ExprOf(blk, "port_max")).Failure?
            && Has(blk, "port_min") && env.num(ExprOf(blk, "port_min")).Success?
            && env.num(ExprOf(blk, "port_min")).value > 0
        ==> PortOrderIssues(blk, env, protocol) == [Issue(RuleName, PortOrderMsg(protocol), ExprOf(blk, "port_max").range)]
    ensures !Has(blk, "port_max") ==> PortOrderIssues(blk, env, protocol) == []
  {
  }
}
