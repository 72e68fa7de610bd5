/** rules/rule_ibm_is_security_group_rule.go */
module SecurityGroupRule {
  import opened Wrappers
  import opened Hcl
  import opened Tflint
  import opened Checks

  const RuleName := "ibm_is_security_group_rule"
  const ResourceType := "ibm_is_security_group_rule"
  const RequiredAttrs := ["group", "direction", "remote"]
  const Directions: set<GoString> := {"inbound", "outbound"}

  const DirectionMsg := Text("direction must be either 'inbound' or 'outbound'")
  const IcmpTypeMsg := Text("ICMP type must be between 0 and 254")
  const IcmpCodeMsg := Text("ICMP code must be between 0 and 255")
  const OnlyOneProtocol := Text("only one protocol block (icmp, tcp, or udp) can be specified")
  const AtLeastOneProtocol := Text("at least one protocol block (icmp, tcp, or udp) must be specified")

  function PortMinMsg(protocol: string): Message {
    Format("", protocol, " port_min must be between 1 and 65535")
  }

  function PortMaxMsg(protocol: string): Message {
    Format("", protocol, " port_max must be between 1 and 65535")
  }

  function PortOrderMsg(protocol: string): Message {
    Format("", protocol, " port_max cannot be less than port_min")
  }

  /** `validateICMPBlock`: an evaluation error is returned. */
  function IcmpBlock(blk: Block, env: Env): Outcome {
    Then(IntRange(RuleName, blk, env, "type", 0, 254, IcmpTypeMsg),
         IntRange(RuleName, blk, env, "code", 0, 255, IcmpCodeMsg))
  }

  /** The value of `minPort` once `port_min` has been handled: zero when absent. */
  function MinPort(blk: Block, env: Env): int {
    if Has(blk, "port_min") && env.num(ExprOf(blk, "port_min")).Success?
    then env.num(ExprOf(blk, "port_min")).value
    else 0
  }

  /** The `port_max` half of `validatePortBlock`: its range, then its order against `minPort`. */
  function PortMaxChecks(blk: Block, env: Env, protocol: string): Outcome {
    if !Has(blk, "port_max") then Pass
    else
      var x := ExprOf(blk, "port_max");
      match env.num(x)
      case Failure(e) => Fail(e)
      case Success(v) =>
        Ok((if 1 <= v <= 65535 then [] else [Issue(RuleName, PortMaxMsg(protocol), x.range)])
           + (if v < MinPort(blk, env) then [Issue(RuleName, PortOrderMsg(protocol), x.range)] else []))
  }

  /** `validatePortBlock`. */
  function PortBlock(blk: Block, env: Env, protocol: string): Outcome {
    Then(IntRange(RuleName, blk, env, "port_min", 1, 65535, PortMinMsg(protocol)),
         PortMaxChecks(blk, env, protocol))
  }

  /** The body of the `switch block.Type` loop. */
  function ProtocolBlock(blk: Block, env: Env): Outcome {
    if blk.typ == "icmp" then IcmpBlock(blk, env)
    else if blk.typ == "tcp" then PortBlock(blk, env, "TCP")
    else if blk.typ == "udp" then PortBlock(blk, env, "UDP")
    else Pass
  }

  /** `protocolCount`: how many of the three kinds occur among the nested blocks. */
  function ProtocolCount(b: Block): nat {
    (if HasBlock(b, "icmp") then 1 else 0)
      + (if HasBlock(b, "tcp") then 1 else 0)
      + (if HasBlock(b, "udp") then 1 else 0)
  }

  /** The two tests on `protocolCount`. */
  function CountIssues(b: Block): seq<Issue> {
    (if ProtocolCount(b) > 1 then [Issue(RuleName, OnlyOneProtocol, b.defRange)] else [])
      + (if ProtocolCount(b) == 0 then [Issue(RuleName, AtLeastOneProtocol, b.defRange)] else [])
  }

  /** The required-attribute loop and the direction check. */
  function AttributeIssues(b: Block, env: Env): Outcome {
    Then(Ok(Missing(RuleName, b, RequiredAttrs, AttributeMustBeSpecified)),
         Enum(RuleName, b, env, "direction", Directions, DirectionMsg))
  }

  /** The protocol block loop and the protocol count tests. */
  function ProtocolIssues(b: Block, env: Env): Outcome {
    Then(ForEach(b.body.blocks, env, ProtocolBlock), Ok(CountIssues(b)))
  }

  /** What `Check` does with one resource block. */
  function ResourceIssues(b: Block, env: Env): Outcome {
    Then(AttributeIssues(b, env), ProtocolIssues(b, env))
  }

  method ValidateIcmpBlock(runner: Runner, blk: Block) returns (err: Option<Error>)
    modifies runner
    ensures Produced(runner, old(runner.issues), err, IcmpBlock(blk, runner.env))
  {
    ghost var done := IntRange(RuleName, blk, runner.env, "type", 0, 254, IcmpTypeMsg);
    err := CheckIntRange(runner, RuleName, blk, "type", 0, 254, IcmpTypeMsg);
    if err.Some? {
      return;
    }
    ghost var step := IntRange(RuleName, blk, runner.env, "code", 0, 255, IcmpCodeMsg);
    err := CheckIntRange(runner, RuleName, blk, "code", 0, 255, IcmpCodeMsg);
    Extend(old(runner.issues), done, step);
  }

  /** The `port_min` half of `validatePortBlock`, leaving `minPort` behind. */
  method CheckPortMin(runner: Runner, blk: Block, protocol: string) returns (err: Option<Error>, minPort: int)
    modifies runner
    ensures Produced(runner, old(runner.issues), err, IntRange(RuleName, blk, runner.env, "port_min", 1, 65535, PortMinMsg(protocol)))
    ensures err.None? ==> minPort == MinPort(blk, runner.env)
  {
    err, minPort := None, 0;
    if "port_min" in blk.body.attributes {
      var x := blk.body.attributes["port_min"].expr;
      var r := runner.EvaluateInt(x);
      if r.Failure? {
        return Some(r.error), 0;
      }
      minPort := r.value;
      if minPort < 1 || minPort > 65535 {
        runner.EmitIssue(RuleName, PortMinMsg(protocol), x.range);
      }
    }
  }

  method CheckPortMax(runner: Runner, blk: Block, protocol: string, minPort: int) returns (err: Option<Error>)
    requires minPort == MinPort(blk, runner.env)
    modifies runner
    ensures Produced(runner, old(runner.issues), err, PortMaxChecks(blk, runner.env, protocol))
  {
    err := None;
    if "port_max" in blk.body.attributes {
      var x := blk.body.attributes["port_max"].expr;
      var r := runner.EvaluateInt(x);
      if r.Failure? {
        return Some(r.error);
      }
      var maxPort := r.value;
      if maxPort < 1 || maxPort > 65535 {
        runner.EmitIssue(RuleName, PortMaxMsg(protocol), x.range);
      }
      if maxPort < minPort {
        runner.EmitIssue(RuleName, PortOrderMsg(protocol), x.range);
      }
    }
  }

  method ValidatePortBlock(runner: Runner, blk: Block, protocol: string) returns (err: Option<Error>)
    modifies runner
    ensures Produced(runner, old(runner.issues), err, PortBlock(blk, runner.env, protocol))
  {
    var minPort;
    err, minPort := CheckPortMin(runner, blk, protocol);
    if err.Some? {
      return;
    }
    ghost var done := IntRange(RuleName, blk, runner.env, "port_min", 1, 65535, PortMinMsg(protocol));
    err := CheckPortMax(runner, blk, protocol, minPort);
    Extend(old(runner.issues), done, PortMaxChecks(blk, runner.env, protocol));
  }

  method CheckAttributes(runner: Runner, b: Block) returns (err: Option<Error>)
    modifies runner
    ensures Produced(runner, old(runner.issues), err, AttributeIssues(b, runner.env))
  {
    CheckRequired(runner, RuleName, b, RequiredAttrs, AttributeMustBeSpecified);
    ghost var done := Ok(Missing(RuleName, b, RequiredAttrs, AttributeMustBeSpecified));
    ghost var step := Enum(RuleName, b, runner.env, "direction", Directions, DirectionMsg);
    err := CheckEnum(runner, RuleName, b, "direction", Directions, DirectionMsg);
    Extend(old(runner.issues), done, step);
  }

  /** One iteration of the `switch block.Type` loop. */
  method ValidateProtocolBlock(runner: Runner, blk: Block) returns (err: Option<Error>)
    modifies runner
    ensures Produced(runner, old(runner.issues), err, ProtocolBlock(blk, runner.env))
  {
    err := None;
    if blk.typ == "icmp" {
      err := ValidateIcmpBlock(runner, blk);
    } else if blk.typ == "tcp" {
      err := ValidatePortBlock(runner, blk, "TCP");
    } else if blk.typ == "udp" {
      err := ValidatePortBlock(runner, blk, "UDP");
    }
  }

  /** The `switch block.Type` loop, also reporting which protocol kinds it met. */
  method ValidateProtocolBlocks(runner: Runner, blocks: seq<Block>)
    returns (err: Option<Error>, hasIcmp: bool, hasTcp: bool, hasUdp: bool)
    modifies runner
    ensures Produced(runner, old(runner.issues), err, ForEach(blocks, runner.env, ProtocolBlock))
    ensures err.None? ==> hasIcmp == AnyOfType(blocks, "icmp")
    ensures err.None? ==> hasTcp == AnyOfType(blocks, "tcp")
    ensures err.None? ==> hasUdp == AnyOfType(blocks, "udp")
  {
    err := None;
    hasIcmp, hasTcp, hasUdp := false, false, false;
    var i := 0;
    while i < |blocks|
      invariant 0 <= i <= |blocks|
      invariant hasIcmp == AnyOfType(blocks[..i], "icmp")
      invariant hasTcp == AnyOfType(blocks[..i], "tcp")
      invariant hasUdp == AnyOfType(blocks[..i], "udp")
      invariant err.None?
      invariant Produced(runner, old(runner.issues), None, ForEach(blocks[..i], runner.env, ProtocolBlock))
    {
      ForEachAppend(old(runner.issues), blocks, i, runner.env, ProtocolBlock);
      AnyOfTypeStep(blocks, i, "icmp");
      AnyOfTypeStep(blocks, i, "tcp");
      AnyOfTypeStep(blocks, i, "udp");
      var blk := blocks[i];
      hasIcmp := hasIcmp || blk.typ == "icmp";
      hasTcp := hasTcp || blk.typ == "tcp";
      hasUdp := hasUdp || blk.typ == "udp";
      err := ValidateProtocolBlock(runner, blk);
      if err.Some? {
        ForEachStopsAtError(blocks, i + 1, runner.env, ProtocolBlock);
        return;
      }
      i := i + 1;
    }
    assert blocks[..i] == blocks;
  }

  method CheckProtocols(runner: Runner, b: Block) returns (err: Option<Error>)
    modifies runner
    ensures Produced(runner, old(runner.issues), err, ProtocolIssues(b, runner.env))
  {
    var hasIcmp, hasTcp, hasUdp;
    err, hasIcmp, hasTcp, hasUdp := ValidateProtocolBlocks(runner, b.body.blocks);
    if err.Some? {
      return;
    }
    var protocolCount := 0;
    if hasIcmp {
      protocolCount := protocolCount + 1;
    }
    if hasTcp {
      protocolCount := protocolCount + 1;
    }
    if hasUdp {
      protocolCount := protocolCount + 1;
    }
    if protocolCount > 1 {
      runner.EmitIssue(RuleName, OnlyOneProtocol, b.defRange);
    }
    if protocolCount == 0 {
      runner.EmitIssue(RuleName, AtLeastOneProtocol, b.defRange);
    }
    Extend(old(runner.issues), ForEach(b.body.blocks, runner.env, ProtocolBlock), Ok(CountIssues(b)));
  }

  method CheckResource(runner: Runner, b: Block) returns (err: Option<Error>)
    modifies runner
    ensures Produced(runner, old(runner.issues), err, ResourceIssues(b, runner.env))
  {
    err := CheckAttributes(runner, b);
    if err.Some? {
      return;
    }
    err := CheckProtocols(runner, b);
    Extend(old(runner.issues), AttributeIssues(b, runner.env), ProtocolIssues(b, runner.env));
  }

  method Check(runner: Runner) returns (err: Option<Error>)
    modifies runner
    ensures Produced(runner, old(runner.issues), err, RunRule(runner.content, ResourceType, runner.env, ResourceIssues))
  {
    var resources := runner.GetResourceContent(ResourceType);
    if resources.Failure? {
      return Some(resources.error);
    }
    var blocks := resources.value;
    var i := 0;
    while i < |blocks|
      invariant 0 <= i <= |blocks|
      invariant Produced(runner, old(runner.issues), None, ForEach(blocks[..i], runner.env, ResourceIssues))
    {
      ForEachStep(blocks, i, runner.env, ResourceIssues);
      err := CheckResource(runner, blocks[i]);
      Extend(old(runner.issues), ForEach(blocks[..i], runner.env, ResourceIssues), ResourceIssues(blocks[i], runner.env));
      if err.Some? {
        ForEachStopsAtError(blocks, i + 1, runner.env, ResourceIssues);
        return;
      }
      i := i + 1;
    }
    assert blocks[..i] == blocks;
    return None;
  }

  // ---------------------------------------------------------------------------
  // Properties.

  /** A present `port_max` evaluates into 1..65535 and is not below `minPort`. */
  predicate PortMaxOk(blk: Block, env: Env) {
    Has(blk, "port_max") ==>
      && env.num(ExprOf(blk, "port_max")).Success?
      && 1 <= env.num(ExprOf(blk, "port_max")).value <= 65535
      && MinPort(blk, env) <= env.num(ExprOf(blk, "port_max")).value
  }

  /** What a nested block must satisfy to draw no issue and no error. */
  predicate ProtocolBlockClean(blk: Block, env: Env) {
    && (blk.typ == "icmp" ==> IntIn(blk, env, "type", 0, 254) && IntIn(blk, env, "code", 0, 255))
    && (blk.typ in {"tcp", "udp"} ==> IntIn(blk, env, "port_min", 1, 65535) && PortMaxOk(blk, env))
  }

  /** What a resource must satisfy to draw no issue and no error. */
  predicate Clean(b: Block, env: Env) {
    && (forall a :: a in RequiredAttrs ==> Has(b, a))
    && StrIn(b, env, "direction", Directions)
    && (forall i :: 0 <= i < |b.body.blocks| ==> ProtocolBlockClean(b.body.blocks[i], env))
    && ProtocolCount(b) == 1
  }

  /** A nested block draws nothing and no error exactly when it is clean. */
  lemma ProtocolBlockPass(blk: Block, env: Env)
    ensures ProtocolBlock(blk, env) == Pass <==> ProtocolBlockClean(blk, env)
  {
    var typ := IntRange(RuleName, blk, env, "type", 0, 254, IcmpTypeMsg);
    var code := IntRange(RuleName, blk, env, "code", 0, 255, IcmpCodeMsg);
    ThenPass(typ, code);
    IntRangePass(RuleName, blk, env, "type", 0, 254, IcmpTypeMsg);
    IntRangePass(RuleName, blk, env, "code", 0, 255, IcmpCodeMsg);
    forall p | p in {"TCP", "UDP"}
      ensures PortBlock(blk, env, p) == Pass <==> IntIn(blk, env, "port_min", 1, 65535) && PortMaxOk(blk, env)
    {
      ThenPass(IntRange(RuleName, blk, env, "port_min", 1, 65535, PortMinMsg(p)), PortMaxChecks(blk, env, p));
      IntRangePass(RuleName, blk, env, "port_min", 1, 65535, PortMinMsg(p));
    }
  }

  /** A resource draws no issue and no error exactly when it is clean. */
  lemma Passes(b: Block, env: Env)
    ensures ResourceIssues(b, env) == Pass <==> Clean(b, env)
  {
    var missing := Ok(Missing(RuleName, b, RequiredAttrs, AttributeMustBeSpecified));
    var direction := Enum(RuleName, b, env, "direction", Directions, DirectionMsg);
    ThenPass(missing, direction);
    ThenPass(AttributeIssues(b, env), ProtocolIssues(b, env));
    ThenPass(ForEach(b.body.blocks, env, ProtocolBlock), Ok(CountIssues(b)));
    MissingNone(RuleName, b, RequiredAttrs, AttributeMustBeSpecified);
    EnumPass(RuleName, b, env, "direction", Directions, DirectionMsg);
    ForEachPass(b.body.blocks, env, ProtocolBlock);
    forall i | 0 <= i < |b.body.blocks| {
      ProtocolBlockPass(b.body.blocks[i], env);
    }
  }

  /** A nested block's validator reports only ICMP messages and messages naming the protocol. */
  lemma ProtocolBlockMessages(blk: Block, env: Env)
    ensures forall iss :: iss in ProtocolBlock(blk, env).issues ==>
      iss.message.Format? || iss.message == IcmpTypeMsg || iss.message == IcmpCodeMsg
  {
    if blk.typ == "icmp" {
      IcmpMessages(blk, env);
    } else if blk.typ == "tcp" {
      PortMessages(blk, env, "TCP");
    } else if blk.typ == "udp" {
      PortMessages(blk, env, "UDP");
    }
  }

  /** The ICMP validator reports only the ICMP type and ICMP code range messages. */
  lemma IcmpMessages(blk: Block, env: Env)
    ensures forall iss :: iss in IcmpBlock(blk, env).issues ==> iss.message == IcmpTypeMsg || iss.message == IcmpCodeMsg
  {
    var typ := IntRange(RuleName, blk, env, "type", 0, 254, IcmpTypeMsg);
    var code := IntRange(RuleName, blk, env, "code", 0, 255, IcmpCodeMsg);
    assert forall iss :: iss in typ.issues ==> iss.message == IcmpTypeMsg;
    assert forall iss :: iss in code.issues ==> iss.message == IcmpCodeMsg;
  }

  /** The port validator reports only messages formatted with the protocol name. */
  lemma PortMessages(blk: Block, env: Env, p: string)
    ensures forall iss :: iss in PortBlock(blk, env, p).issues ==> iss.message.Format?
  {
    var min := IntRange(RuleName, blk, env, "port_min", 1, 65535, PortMinMsg(p));
    assert forall iss :: iss in min.issues ==> iss.message == PortMinMsg(p);
    assert forall iss :: iss in PortMaxChecks(blk, env, p).issues ==> iss.message.Format?;
  }

  /** No nested block's validator reports a protocol count message. */
  lemma ProtocolLoopAvoids(b: Block, env: Env, m: Message)
    requires m == OnlyOneProtocol || m == AtLeastOneProtocol
    ensures forall iss :: iss in ForEach(b.body.blocks, env, ProtocolBlock).issues ==> iss.message != m
  {
    forall i | 0 <= i < |b.body.blocks|
      ensures forall iss :: iss in ProtocolBlock(b.body.blocks[i], env).issues ==> iss.message != m
    {
      ProtocolBlockMessages(b.body.blocks[i], env);
    }
    ForEachAvoids(b.body.blocks, env, ProtocolBlock, m);
  }

  /**
   * Once the resource is checked without error, it carries the "only one"
   * issue exactly when two or more protocol kinds occur, the "at least one"
   * issue exactly when none occurs, each at most once, and neither when
   * exactly one kind occurs.
   */
  lemma ProtocolCountReported(b: Block, env: Env)
    requires ResourceIssues(b, env).err.None?
    ensures multiset(ResourceIssues(b, env).issues)[Issue(RuleName, OnlyOneProtocol, b.defRange)]
         == if ProtocolCount(b) > 1 then 1 else 0
    ensures multiset(ResourceIssues(b, env).issues)[Issue(RuleName, AtLeastOneProtocol, b.defRange)]
         == if ProtocolCount(b) == 0 then 1 else 0
  {
    var one := Issue(RuleName, OnlyOneProtocol, b.defRange);
    var none := Issue(RuleName, AtLeastOneProtocol, b.defRange);
    var attrs := AttributeIssues(b, env);
    var loop := ForEach(b.body.blocks, env, ProtocolBlock);
    var before := attrs.issues + loop.issues;
    var after := CountIssues(b);
    assert attrs.err.None? && loop.err.None?;
    assert ResourceIssues(b, env).issues == before + after;
    BeforeCountAvoids(b, env);
    CountAfter(before, after, one);
    CountAfter(before, after, none);
    CountIssuesCounts(b);
  }

  /** The two count tests report each message once, under its own condition. */
  lemma CountIssuesCounts(b: Block)
    ensures multiset(CountIssues(b))[Issue(RuleName, OnlyOneProtocol, b.defRange)]
         == if ProtocolCount(b) > 1 then 1 else 0
    ensures multiset(CountIssues(b))[Issue(RuleName, AtLeastOneProtocol, b.defRange)]
         == if ProtocolCount(b) == 0 then 1 else 0
  {
  }

  /** The attribute checks report only "`<name>` attribute must be specified" and the direction message. */
  lemma AttributeMessages(b: Block, env: Env)
    ensures forall iss :: iss in AttributeIssues(b, env).issues ==> iss.message.Format? || iss.message == DirectionMsg
  {
    var missing := Ok(Missing(RuleName, b, RequiredAttrs, AttributeMustBeSpecified));
    var direction := Enum(RuleName, b, env, "direction", Directions, DirectionMsg);
    MissingFormats(RuleName, b, RequiredAttrs, AttributeMustBeSpecified);
    EnumReportsOnly(RuleName, b, env, "direction", Directions, DirectionMsg);
    ThenIssues(missing, direction);
  }

  /** Everything reported before the count tests avoids both count messages. */
  lemma BeforeCountAvoids(b: Block, env: Env)
    ensures forall iss :: iss in AttributeIssues(b, env).issues + ForEach(b.body.blocks, env, ProtocolBlock).issues ==>
      iss.message != OnlyOneProtocol && iss.message != AtLeastOneProtocol
  {
    var attrs := AttributeIssues(b, env).issues;
    var loop := ForEach(b.body.blocks, env, ProtocolBlock).issues;
    ProtocolLoopAvoids(b, env, OnlyOneProtocol);
    ProtocolLoopAvoids(b, env, AtLeastOneProtocol);
    AttributeMessages(b, env);
    assert forall iss :: iss in attrs + loop ==> iss in attrs || iss in loop;
  }

  /**
   * `port_max` is compared with the evaluated `port_min`, or with zero when
   * `port_min` is absent; a value both out of range and below `port_min`
   * draws two issues at `port_max`'s range.
   */
  lemma PortMaxReports(blk: Block, env: Env, protocol: string)
    requires Has(blk, "port_max") && env.num(ExprOf(blk, "port_max")).Success?
    ensures var v := env.num(ExprOf(blk, "port_max")).value;
            var at := ExprOf(blk, "port_max").range;
            && (!Has(blk, "port_min") ==>
                  (Issue(RuleName, PortOrderMsg(protocol), at) in PortMaxChecks(blk, env, protocol).issues <==> v < 0))
            && (Has(blk, "port_min") && env.num(ExprOf(blk, "port_min")).Success? ==>
                  (Issue(RuleName, PortOrderMsg(protocol), at) in PortMaxChecks(blk, env, protocol).issues
                   <==> v < env.num(ExprOf(blk, "port_min")).value))
            && (!(1 <= v <= 65535) && v < MinPort(blk, env) ==>
                  PortMaxChecks(blk, env, protocol).issues
                  == [Issue(RuleName, PortMaxMsg(protocol), at), Issue(RuleName, PortOrderMsg(protocol), at)])
  {
  }

  /**
   * Unlike the network ACL rule, an ICMP `type` or `code` that fails to
   * evaluate ends the check of the resource with that error.
   */
  lemma IcmpErrorEnds(b: Block, env: Env, k: nat, attr: string)
    requires AttributeIssues(b, env).err.None?
    requires k < |b.body.blocks| && b.body.blocks[k].typ == "icmp"
    requires attr in {"type", "code"}
    requires Has(b.body.blocks[k], attr) && env.num(ExprOf(b.body.blocks[k], attr)).Failure?
    ensures ResourceIssues(b, env).err.Some?
  {
    var blk := b.body.blocks[k];
    assert ProtocolBlock(blk, env).err.Some?;
    ForEachFails(b.body.blocks, k, env, ProtocolBlock);
  }
}
