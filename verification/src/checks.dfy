/**
 * The constraint shapes that recur across the rule files, each as a
 * specification function (what it emits, or the error it returns) and as a
 * method that does it through the runner, proved to match.
 */
module Checks {
  import opened Wrappers
  import opened Hcl
  import opened Tflint
  import opened Validators

  /** The longest name most rules accept. */
  const MaxNameLength := 63

  /** The message of every `requiredAttrs` loop. */
  const AttributeMustBeSpecified := Template("`", "` attribute must be specified")

  /** The same message without the backquotes, as some rules write it. */
  const MustBeSpecified := Template("", " attribute must be specified")

  const NameEmpty := Text("name cannot be empty")
  const NameTooLong := Text("name cannot be longer than 63 characters")

  /** `len(v) > 0`, the test behind the "cannot be empty" messages. */
  predicate NonEmpty(s: GoString) {
    |s| > 0
  }

  /** `len(list) > 0`, the test behind the "at least one" messages on lists. */
  predicate NonEmptyList(s: seq<GoString>) {
    |s| > 0
  }

  /** `len(v) <= 63`, the test behind the "longer than 63 characters" messages. */
  predicate FitsName(s: GoString) {
    |s| <= MaxNameLength
  }

  /** `len(account) != 32` is reported: account IDs have 32 bytes. */
  predicate IsAccountId(s: GoString) {
    |s| == 32
  }

  const InvalidAccountId := Text("invalid account ID format")
  const InvalidZone := Text("invalid zone format. Must be in format: region-number (e.g., us-south-1)")

  const InvalidIPv4 := Text("invalid IPv4 address format")
  const InvalidCidr := Text("invalid CIDR format")

  const AccessPolicies: set<GoString> := {"permit", "deny"}
  const AccessPolicyMsg := Text("access_policy must be either 'permit' or 'deny'")

  predicate Distinct(s: seq<string>) {
    forall i, j :: 0 <= i < j < |s| ==> s[i] != s[j]
  }

  // ---------------------------------------------------------------------------
  // Required attributes: one issue at the block's DefRange per absent name.

  /** The issues of `for _, a := range attrs { if absent(a) { EmitIssue(t(a), DefRange) } }`. */
  function Missing(rule: string, b: Block, attrs: seq<string>, t: Template): seq<Issue>
    decreases |attrs|
  {
    if attrs == [] then []
    else
      var a := attrs[|attrs| - 1];
      Missing(rule, b, attrs[..|attrs| - 1], t)
        + (if Has(b, a) then [] else [Issue(rule, Fill(t, a), b.defRange)])
  }

  /** The names in `attrs` that `b` lacks, in order. */
  function Absent(b: Block, attrs: seq<string>): (r: seq<string>)
    ensures forall a :: a in r <==> a in attrs && !Has(b, a)
    decreases |attrs|
  {
    if attrs == [] then []
    else
      var a := attrs[|attrs| - 1];
      Absent(b, attrs[..|attrs| - 1]) + (if Has(b, a) then [] else [a])
  }

  /** The i-th missing-attribute issue names the i-th absent attribute. */
  lemma {:induction false} MissingNamesAbsent(rule: string, b: Block, attrs: seq<string>, t: Template)
    ensures |Missing(rule, b, attrs, t)| == |Absent(b, attrs)|
    ensures forall i :: 0 <= i < |Absent(b, attrs)| ==>
      Missing(rule, b, attrs, t)[i] == Issue(rule, Fill(t, Absent(b, attrs)[i]), b.defRange)
    decreases |attrs|
  {
    if attrs != [] {
      MissingNamesAbsent(rule, b, attrs[..|attrs| - 1], t);
    }
  }

  /** Every issue of the required-attribute loop is a filled template. */
  lemma MissingFormats(rule: string, b: Block, attrs: seq<string>, t: Template)
    ensures forall iss :: iss in Missing(rule, b, attrs, t) ==> iss.message.Format?
  {
    MissingNamesAbsent(rule, b, attrs, t);
  }

  /**
   * With distinct names, each absent attribute yields exactly one issue, at
   * the block's DefRange, and a present one yields none.
   */
  lemma {:induction false} MissingOncePerAbsent(rule: string, b: Block, attrs: seq<string>, t: Template,
                                                a: string, r: Range)
    requires Distinct(attrs)
    ensures multiset(Missing(rule, b, attrs, t))[Issue(rule, Fill(t, a), r)]
         == if a in attrs && !Has(b, a) && r == b.defRange then 1 else 0
    decreases |attrs|
  {
    if attrs != [] {
      var init := attrs[..|attrs| - 1];
      assert Distinct(init);
      MissingOncePerAbsent(rule, b, init, t, a, r);
      assert attrs == init + [attrs[|attrs| - 1]];
      if a == attrs[|attrs| - 1] {
        assert a !in init;
      }
    }
  }

  /** No issue exactly when every required attribute is present. */
  lemma {:induction false} MissingNone(rule: string, b: Block, attrs: seq<string>, t: Template)
    ensures Missing(rule, b, attrs, t) == [] <==> forall a :: a in attrs ==> Has(b, a)
  {
    MissingNamesAbsent(rule, b, attrs, t);
    if Absent(b, attrs) != [] {
      assert Absent(b, attrs)[0] in Absent(b, attrs);
    }
  }

  /** The number of required attributes absent, summed over the blocks. */
  function AbsentCount(bs: seq<Block>, attrs: seq<string>): nat
    decreases |bs|
  {
    if bs == [] then 0 else AbsentCount(bs[..|bs| - 1], attrs) + |Absent(bs[|bs| - 1], attrs)|
  }

  /**
   * A loop whose body only tests required attributes evaluates nothing, so
   * it never fails, and it reports once per absent attribute per block.
   */
  lemma {:induction false} MissingLoopCount(rule: string, bs: seq<Block>, env: Env, attrs: seq<string>, t: Template,
                                            f: (Block, Env) -> Outcome)
    requires forall i :: 0 <= i < |bs| ==> f(bs[i], env) == Ok(Missing(rule, bs[i], attrs, t))
    ensures ForEach(bs, env, f).err.None?
    ensures |ForEach(bs, env, f).issues| == AbsentCount(bs, attrs)
    decreases |bs|
  {
    if bs != [] {
      var init := bs[..|bs| - 1];
      assert forall i :: 0 <= i < |init| ==> init[i] == bs[i];
      MissingLoopCount(rule, init, env, attrs, t, f);
      MissingNamesAbsent(rule, bs[|bs| - 1], attrs, t);
    }
  }

  method CheckRequired(runner: Runner, rule: string, b: Block, attrs: seq<string>, t: Template)
    modifies runner
    ensures runner.issues == old(runner.issues) + Missing(rule, b, attrs, t)
  {
    var i := 0;
    while i < |attrs|
      invariant 0 <= i <= |attrs|
      invariant runner.issues == old(runner.issues) + Missing(rule, b, attrs[..i], t)
    {
      assert attrs[..i + 1][..i] == attrs[..i];
      if attrs[i] !in b.body.attributes {
        runner.EmitIssue(rule, Fill(t, attrs[i]), b.defRange);
      }
      i := i + 1;
    }
    assert attrs[..i] == attrs;
  }

  /** A single required attribute with a message of its own. */
  function Require(rule: string, b: Block, attr: string, msg: Message): (r: seq<Issue>)
    ensures r == [] <==> Has(b, attr)
  {
    if Has(b, attr) then [] else [Issue(rule, msg, b.defRange)]
  }

  method CheckRequire(runner: Runner, rule: string, b: Block, attr: string, msg: Message)
    modifies runner
    ensures runner.issues == old(runner.issues) + Require(rule, b, attr, msg)
  {
    if attr !in b.body.attributes {
      runner.EmitIssue(rule, msg, b.defRange);
    }
  }

  // ---------------------------------------------------------------------------
  // Two alternatives of which exactly one must be given: both, and neither,
  // are each reported at the block's DefRange.

  function OneOf(rule: string, b: Block, first: bool, second: bool, both: Message, neither: Message): (r: seq<Issue>)
    ensures r == [] <==> first != second
    ensures first && second ==> r == [Issue(rule, both, b.defRange)]
    ensures !first && !second ==> r == [Issue(rule, neither, b.defRange)]
  {
    if first && second then [Issue(rule, both, b.defRange)]
    else if !first && !second then [Issue(rule, neither, b.defRange)]
    else []
  }

  /** The `hasX` flag set by the first alternative and tested by the second. */
  method CheckOneOf(runner: Runner, rule: string, b: Block, first: bool, second: bool, both: Message, neither: Message)
    modifies runner
    ensures runner.issues == old(runner.issues) + OneOf(rule, b, first, second, both, neither)
  {
    var has := false;
    if first {
      has := true;
    }
    if second {
      if has {
        runner.EmitIssue(rule, both, b.defRange);
      }
      has := true;
    }
    if !has {
      runner.EmitIssue(rule, neither, b.defRange);
    }
  }

  /** Two attributes that go together: exactly one of them present is reported at the DefRange. */
  function Together(rule: string, b: Block, first: string, second: string, msg: Message): (r: seq<Issue>)
    ensures r == [] <==> (Has(b, first) <==> Has(b, second))
  {
    if Has(b, first) != Has(b, second) then [Issue(rule, msg, b.defRange)] else []
  }

  method CheckTogether(runner: Runner, rule: string, b: Block, first: string, second: string, msg: Message)
    modifies runner
    ensures runner.issues == old(runner.issues) + Together(rule, b, first, second, msg)
  {
    var hasFirst := false;
    var hasSecond := false;
    if first in b.body.attributes {
      hasFirst := true;
    }
    if second in b.body.attributes {
      hasSecond := true;
    }
    if hasFirst != hasSecond {
      runner.EmitIssue(rule, msg, b.defRange);
    }
  }

  /** Two attributes that exclude each other: both present is reported at the DefRange. */
  function NotBoth(rule: string, b: Block, first: string, second: string, msg: Message): (r: seq<Issue>)
    ensures r == [] <==> !(Has(b, first) && Has(b, second))
  {
    if Has(b, first) && Has(b, second) then [Issue(rule, msg, b.defRange)] else []
  }

  method CheckNotBoth(runner: Runner, rule: string, b: Block, first: string, second: string, msg: Message)
    modifies runner
    ensures runner.issues == old(runner.issues) + NotBoth(rule, b, first, second, msg)
  {
    var hasFirst := false;
    var hasSecond := false;
    if first in b.body.attributes {
      hasFirst := true;
    }
    if second in b.body.attributes {
      hasSecond := true;
    }
    if hasFirst && hasSecond {
      runner.EmitIssue(rule, msg, b.defRange);
    }
  }

  // ---------------------------------------------------------------------------
  // `len(resource.Body.Blocks) == 0`: a resource without any nested block.

  function NoBlocks(rule: string, b: Block, msg: Message): (r: seq<Issue>)
    ensures r == [] <==> |b.body.blocks| > 0
  {
    if |b.body.blocks| == 0 then [Issue(rule, msg, b.defRange)] else []
  }

  method CheckNoBlocks(runner: Runner, rule: string, b: Block, msg: Message)
    modifies runner
    ensures runner.issues == old(runner.issues) + NoBlocks(rule, b, msg)
  {
    if |b.body.blocks| == 0 {
      runner.EmitIssue(rule, msg, b.defRange);
    }
  }

  // ---------------------------------------------------------------------------
  // A list of strings whose every element is tested, one issue per rejected
  // element, all at the attribute's range.

  /** The elements `ok` rejects, in order. */
  function Rejected(vals: seq<GoString>, ok: GoString -> bool): (r: seq<GoString>)
    ensures |r| <= |vals|
    ensures forall v :: v in r <==> v in vals && !ok(v)
    decreases |vals|
  {
    if vals == [] then []
    else
      var v := vals[|vals| - 1];
      Rejected(vals[..|vals| - 1], ok) + (if ok(v) then [] else [v])
  }

  /** `for _, v := range vals { if !ok(v) { EmitIssue(iss) } }`. */
  function ElementIssues(vals: seq<GoString>, ok: GoString -> bool, iss: Issue): (r: seq<Issue>)
    ensures forall k :: 0 <= k < |r| ==> r[k] == iss
    decreases |vals|
  {
    if vals == [] then []
    else
      var v := vals[|vals| - 1];
      ElementIssues(vals[..|vals| - 1], ok, iss) + (if ok(v) then [] else [iss])
  }

  /** One issue per rejected element. */
  lemma {:induction false} ElementIssuesCount(vals: seq<GoString>, ok: GoString -> bool, iss: Issue)
    ensures |ElementIssues(vals, ok, iss)| == |Rejected(vals, ok)|
    decreases |vals|
  {
    if vals != [] {
      ElementIssuesCount(vals[..|vals| - 1], ok, iss);
    }
  }

  /** No issue exactly when every element is accepted. */
  lemma ElementIssuesNone(vals: seq<GoString>, ok: GoString -> bool, iss: Issue)
    ensures ElementIssues(vals, ok, iss) == [] <==> forall i :: 0 <= i < |vals| ==> ok(vals[i])
  {
    ElementIssuesCount(vals, ok, iss);
    if Rejected(vals, ok) != [] {
      assert Rejected(vals, ok)[0] in Rejected(vals, ok);
    }
    if exists i :: 0 <= i < |vals| && !ok(vals[i]) {
      var i :| 0 <= i < |vals| && !ok(vals[i]);
      assert vals[i] in Rejected(vals, ok);
    }
  }

  /** A present list attribute whose elements are tested one by one; an evaluation error ends the check. */
  function Elements(rule: string, b: Block, env: Env, attr: string, ok: GoString -> bool, msg: Message): Outcome {
    if !Has(b, attr) then Pass
    else
      match env.strs(ExprOf(b, attr))
      case Failure(e) => Fail(e)
      case Success(vs) => Ok(ElementIssues(vs, ok, Issue(rule, msg, ExprOf(b, attr).range)))
  }

  method CheckElements(runner: Runner, rule: string, b: Block, attr: string, ok: GoString -> bool, msg: Message)
    returns (err: Option<Error>)
    modifies runner
    ensures Produced(runner, old(runner.issues), err, Elements(rule, b, runner.env, attr, ok, msg))
  {
    err := None;
    if attr in b.body.attributes {
      var x := b.body.attributes[attr].expr;
      var r := runner.EvaluateStrings(x);
      if r.Failure? {
        return Some(r.error);
      }
      var vs := r.value;
      var i := 0;
      while i < |vs|
        invariant 0 <= i <= |vs|
        invariant runner.issues == old(runner.issues) + ElementIssues(vs[..i], ok, Issue(rule, msg, x.range))
      {
        assert vs[..i + 1][..i] == vs[..i];
        if !ok(vs[i]) {
          runner.EmitIssue(rule, msg, x.range);
        }
        i := i + 1;
      }
      assert vs[..i] == vs;
    }
  }

  /**
   * `for _, v := range vals { if !ok(v) { EmitIssue(fmt.Sprintf(t, v)) } }`:
   * one issue per rejected element, each naming that element.
   */
  function NamedElementIssues(vals: seq<GoString>, ok: GoString -> bool, rule: string, t: Template, at: Range)
    : seq<Issue>
    decreases |vals|
  {
    if vals == [] then []
    else
      var v := vals[|vals| - 1];
      NamedElementIssues(vals[..|vals| - 1], ok, rule, t, at) + (if ok(v) then [] else [Issue(rule, Fill(t, v), at)])
  }

  /** The k-th issue names the k-th rejected element. */
  lemma {:induction false} NamedElementIssuesName(vals: seq<GoString>, ok: GoString -> bool, rule: string, t: Template, at: Range)
    ensures |NamedElementIssues(vals, ok, rule, t, at)| == |Rejected(vals, ok)|
    ensures forall k :: 0 <= k < |Rejected(vals, ok)| ==>
      NamedElementIssues(vals, ok, rule, t, at)[k] == Issue(rule, Fill(t, Rejected(vals, ok)[k]), at)
    decreases |vals|
  {
    if vals != [] {
      NamedElementIssuesName(vals[..|vals| - 1], ok, rule, t, at);
    }
  }

  /** A present list attribute whose rejected elements are each reported by name. */
  function NamedElements(rule: string, b: Block, env: Env, attr: string, ok: GoString -> bool, t: Template): Outcome {
    if !Has(b, attr) then Pass
    else
      match env.strs(ExprOf(b, attr))
      case Failure(e) => Fail(e)
      case Success(vs) => Ok(NamedElementIssues(vs, ok, rule, t, ExprOf(b, attr).range))
  }

  method CheckNamedElements(runner: Runner, rule: string, b: Block, attr: string, ok: GoString -> bool, t: Template)
    returns (err: Option<Error>)
    modifies runner
    ensures Produced(runner, old(runner.issues), err, NamedElements(rule, b, runner.env, attr, ok, t))
  {
    err := None;
    if attr in b.body.attributes {
      var x := b.body.attributes[attr].expr;
      var r := runner.EvaluateStrings(x);
      if r.Failure? {
        return Some(r.error);
      }
      var vs := r.value;
      var i := 0;
      while i < |vs|
        invariant 0 <= i <= |vs|
        invariant runner.issues == old(runner.issues) + NamedElementIssues(vs[..i], ok, rule, t, x.range)
      {
        assert vs[..i + 1][..i] == vs[..i];
        if !ok(vs[i]) {
          runner.EmitIssue(rule, Fill(t, vs[i]), x.range);
        }
        i := i + 1;
      }
      assert vs[..i] == vs;
    }
  }

  // ---------------------------------------------------------------------------
  // A present string attribute tested against a set or a predicate; an
  // evaluation error ends the check.

  /** `if attr present { eval or return err; if !allowed[v] { EmitIssue(msg, expr range) } }` */
  function Enum(rule: string, b: Block, env: Env, attr: string, allowed: set<GoString>, msg: Message): Outcome {
    if !Has(b, attr) then Pass
    else
      match env.str(ExprOf(b, attr))
      case Failure(e) => Fail(e)
      case Success(v) => Ok(if v in allowed then [] else [Issue(rule, msg, ExprOf(b, attr).range)])
  }

  method CheckEnum(runner: Runner, rule: string, b: Block, attr: string, allowed: set<GoString>, msg: Message)
    returns (err: Option<Error>)
    modifies runner
    ensures Produced(runner, old(runner.issues), err, Enum(rule, b, runner.env, attr, allowed, msg))
  {
    err := None;
    if attr in b.body.attributes {
      var x := b.body.attributes[attr].expr;
      var r := runner.EvaluateString(x);
      if r.Failure? {
        return Some(r.error);
      }
      if r.value !in allowed {
        runner.EmitIssue(rule, msg, x.range);
      }
    }
  }

  /**
   * The enum test, then on the same value `if v == trigger { if needed
   * absent { EmitIssue(neededMsg, expr range) } }`: one value selects an
   * attribute that must accompany it.
   */
  function EnumNeeding(rule: string, b: Block, env: Env, attr: string, allowed: set<GoString>, msg: Message,
                       trigger: GoString, needed: string, neededMsg: Message): Outcome {
    if !Has(b, attr) then Pass
    else
      match env.str(ExprOf(b, attr))
      case Failure(e) => Fail(e)
      case Success(v) =>
        Ok((if v in allowed then [] else [Issue(rule, msg, ExprOf(b, attr).range)])
           + (if v == trigger && !Has(b, needed) then [Issue(rule, neededMsg, ExprOf(b, attr).range)] else []))
  }

  method CheckEnumNeeding(runner: Runner, rule: string, b: Block, attr: string, allowed: set<GoString>, msg: Message,
                          trigger: GoString, needed: string, neededMsg: Message)
    returns (err: Option<Error>)
    modifies runner
    ensures Produced(runner, old(runner.issues), err,
                     EnumNeeding(rule, b, runner.env, attr, allowed, msg, trigger, needed, neededMsg))
  {
    err := None;
    if attr in b.body.attributes {
      var x := b.body.attributes[attr].expr;
      var r := runner.EvaluateString(x);
      if r.Failure? {
        return Some(r.error);
      }
      if r.value !in allowed {
        runner.EmitIssue(rule, msg, x.range);
      }
      if r.value == trigger {
        if needed !in b.body.attributes {
          runner.EmitIssue(rule, neededMsg, x.range);
        }
      }
    }
  }

  /**
   * When the selecting value is itself allowed, a value draws at most one
   * issue: the enum issue for a value outside the set, the missing
   * companion for the selecting value.
   */
  lemma EnumNeedingOne(rule: string, b: Block, env: Env, attr: string, allowed: set<GoString>, msg: Message,
                       trigger: GoString, needed: string, neededMsg: Message)
    requires trigger in allowed
    requires Has(b, attr) && env.str(ExprOf(b, attr)).Success?
    ensures EnumNeeding(rule, b, env, attr, allowed, msg, trigger, needed, neededMsg).err.None?
    ensures EnumNeeding(rule, b, env, attr, allowed, msg, trigger, needed, neededMsg).issues
         == if env.str(ExprOf(b, attr)).value !in allowed then [Issue(rule, msg, ExprOf(b, attr).range)]
            else if env.str(ExprOf(b, attr)).value == trigger && !Has(b, needed) then [Issue(rule, neededMsg, ExprOf(b, attr).range)]
            else []
  {
  }

  /** `if attr present { eval or return err; if !ok(v) { EmitIssue(msg, expr range) } }` */
  function Valid(rule: string, b: Block, env: Env, attr: string, ok: GoString -> bool, msg: Message): Outcome {
    if !Has(b, attr) then Pass
    else
      match env.str(ExprOf(b, attr))
      case Failure(e) => Fail(e)
      case Success(v) => Ok(if ok(v) then [] else [Issue(rule, msg, ExprOf(b, attr).range)])
  }

  method CheckValid(runner: Runner, rule: string, b: Block, attr: string, ok: GoString -> bool, msg: Message)
    returns (err: Option<Error>)
    modifies runner
    ensures Produced(runner, old(runner.issues), err, Valid(rule, b, runner.env, attr, ok, msg))
  {
    err := None;
    if attr in b.body.attributes {
      var x := b.body.attributes[attr].expr;
      var r := runner.EvaluateString(x);
      if r.Failure? {
        return Some(r.error);
      }
      if !ok(r.value) {
        runner.EmitIssue(rule, msg, x.range);
      }
    }
  }

  /** A present address attribute tested with `isValidIPv4`; an evaluation error ends the check. */
  function IPv4(rule: string, b: Block, env: Env, attr: string, msg: Message): Outcome {
    if !Has(b, attr) then Pass
    else
      match env.str(ExprOf(b, attr))
      case Failure(e) => Fail(e)
      case Success(v) => Ok(if IsValidIPv4(env, v) then [] else [Issue(rule, msg, ExprOf(b, attr).range)])
  }

  method CheckIPv4(runner: Runner, rule: string, b: Block, attr: string, msg: Message)
    returns (err: Option<Error>)
    modifies runner
    ensures Produced(runner, old(runner.issues), err, IPv4(rule, b, runner.env, attr, msg))
  {
    err := None;
    if attr in b.body.attributes {
      var x := b.body.attributes[attr].expr;
      var r := runner.EvaluateString(x);
      if r.Failure? {
        return Some(r.error);
      }
      if !IsValidIPv4(runner.env, r.value) {
        runner.EmitIssue(rule, msg, x.range);
      }
    }
  }

  /** A present list-of-strings attribute tested with `ok`; an evaluation error ends the check. */
  function ValidList(rule: string, b: Block, env: Env, attr: string, ok: seq<GoString> -> bool, msg: Message): Outcome {
    if !Has(b, attr) then Pass
    else
      match env.strs(ExprOf(b, attr))
      case Failure(e) => Fail(e)
      case Success(v) => Ok(if ok(v) then [] else [Issue(rule, msg, ExprOf(b, attr).range)])
  }

  method CheckValidList(runner: Runner, rule: string, b: Block, attr: string, ok: seq<GoString> -> bool, msg: Message)
    returns (err: Option<Error>)
    modifies runner
    ensures Produced(runner, old(runner.issues), err, ValidList(rule, b, runner.env, attr, ok, msg))
  {
    err := None;
    if attr in b.body.attributes {
      var x := b.body.attributes[attr].expr;
      var r := runner.EvaluateStrings(x);
      if r.Failure? {
        return Some(r.error);
      }
      if !ok(r.value) {
        runner.EmitIssue(rule, msg, x.range);
      }
    }
  }

  /**
   * The name check: `len(v) == 0` and `len(v) > 63` tested one after the
   * other, each with its own message, both at the expression's range.
   */
  function NameLength(rule: string, b: Block, env: Env, attr: string, emptyMsg: Message, longMsg: Message): Outcome {
    if !Has(b, attr) then Pass
    else
      match env.str(ExprOf(b, attr))
      case Failure(e) => Fail(e)
      case Success(v) =>
        var at := ExprOf(b, attr).range;
        Ok((if |v| == 0 then [Issue(rule, emptyMsg, at)] else [])
           + (if |v| > MaxNameLength then [Issue(rule, longMsg, at)] else []))
  }

  /** The two length tests exclude each other: a name yields at most one issue. */
  lemma NameLengthAtMostOne(rule: string, b: Block, env: Env, attr: string, emptyMsg: Message, longMsg: Message)
    ensures |NameLength(rule, b, env, attr, emptyMsg, longMsg).issues| <= 1
  {
  }

  method CheckNameLength(runner: Runner, rule: string, b: Block, attr: string, emptyMsg: Message, longMsg: Message)
    returns (err: Option<Error>)
    modifies runner
    ensures Produced(runner, old(runner.issues), err, NameLength(rule, b, runner.env, attr, emptyMsg, longMsg))
  {
    err := None;
    if attr in b.body.attributes {
      var x := b.body.attributes[attr].expr;
      var r := runner.EvaluateString(x);
      if r.Failure? {
        return Some(r.error);
      }
      if |r.value| == 0 {
        runner.EmitIssue(rule, emptyMsg, x.range);
      }
      if |r.value| > MaxNameLength {
        runner.EmitIssue(rule, longMsg, x.range);
      }
    }
  }

  // ---------------------------------------------------------------------------
  // Integer, float and bool attributes.

  /** `if v < lo || v > hi { EmitIssue }`, an evaluation error ending the check. */
  function IntRange(rule: string, b: Block, env: Env, attr: string, lo: int, hi: int, msg: Message): Outcome {
    if !Has(b, attr) then Pass
    else
      match env.num(ExprOf(b, attr))
      case Failure(e) => Fail(e)
      case Success(v) => Ok(if lo <= v <= hi then [] else [Issue(rule, msg, ExprOf(b, attr).range)])
  }

  method CheckIntRange(runner: Runner, rule: string, b: Block, attr: string, lo: int, hi: int, msg: Message)
    returns (err: Option<Error>)
    modifies runner
    ensures Produced(runner, old(runner.issues), err, IntRange(rule, b, runner.env, attr, lo, hi, msg))
  {
    err := None;
    if attr in b.body.attributes {
      var x := b.body.attributes[attr].expr;
      var r := runner.EvaluateInt(x);
      if r.Failure? {
        return Some(r.error);
      }
      if r.value < lo || r.value > hi {
        runner.EmitIssue(rule, msg, x.range);
      }
    }
  }

  /** `if err := eval; err == nil { if v < lo || v > hi { EmitIssue } }`: a failed evaluation skips the test. */
  function IntRangeIfEvaluates(rule: string, b: Block, env: Env, attr: string, lo: int, hi: int, msg: Message): seq<Issue> {
    if !Has(b, attr) then []
    else
      match env.num(ExprOf(b, attr))
      case Failure(_) => []
      case Success(v) => if lo <= v <= hi then [] else [Issue(rule, msg, ExprOf(b, attr).range)]
  }

  method CheckIntRangeIfEvaluates(runner: Runner, rule: string, b: Block, attr: string, lo: int, hi: int, msg: Message)
    modifies runner
    ensures runner.issues == old(runner.issues) + IntRangeIfEvaluates(rule, b, runner.env, attr, lo, hi, msg)
  {
    if attr in b.body.attributes {
      var x := b.body.attributes[attr].expr;
      var r := runner.EvaluateInt(x);
      if r.Success? && (r.value < lo || r.value > hi) {
        runner.EmitIssue(rule, msg, x.range);
      }
    }
  }

  /** `if !ok(v) { EmitIssue }` over an integer, an evaluation error ending the check. */
  function IntValid(rule: string, b: Block, env: Env, attr: string, ok: int -> bool, msg: Message): Outcome {
    if !Has(b, attr) then Pass
    else
      match env.num(ExprOf(b, attr))
      case Failure(e) => Fail(e)
      case Success(v) => Ok(if ok(v) then [] else [Issue(rule, msg, ExprOf(b, attr).range)])
  }

  method CheckIntValid(runner: Runner, rule: string, b: Block, attr: string, ok: int -> bool, msg: Message)
    returns (err: Option<Error>)
    modifies runner
    ensures Produced(runner, old(runner.issues), err, IntValid(rule, b, runner.env, attr, ok, msg))
  {
    err := None;
    if attr in b.body.attributes {
      var x := b.body.attributes[attr].expr;
      var r := runner.EvaluateInt(x);
      if r.Failure? {
        return Some(r.error);
      }
      if !ok(r.value) {
        runner.EmitIssue(rule, msg, x.range);
      }
    }
  }

  /** `if v < lo { EmitIssue }`, an evaluation error ending the check. */
  function IntAtLeast(rule: string, b: Block, env: Env, attr: string, lo: int, msg: Message): Outcome {
    if !Has(b, attr) then Pass
    else
      match env.num(ExprOf(b, attr))
      case Failure(e) => Fail(e)
      case Success(v) => Ok(if v < lo then [Issue(rule, msg, ExprOf(b, attr).range)] else [])
  }

  method CheckIntAtLeast(runner: Runner, rule: string, b: Block, attr: string, lo: int, msg: Message)
    returns (err: Option<Error>)
    modifies runner
    ensures Produced(runner, old(runner.issues), err, IntAtLeast(rule, b, runner.env, attr, lo, msg))
  {
    err := None;
    if attr in b.body.attributes {
      var x := b.body.attributes[attr].expr;
      var r := runner.EvaluateInt(x);
      if r.Failure? {
        return Some(r.error);
      }
      if r.value < lo {
        runner.EmitIssue(rule, msg, x.range);
      }
    }
  }

  /** `if !valid[v] { EmitIssue }` over an integer set, an evaluation error ending the check. */
  function IntAmong(rule: string, b: Block, env: Env, attr: string, allowed: set<int>, msg: Message): Outcome {
    if !Has(b, attr) then Pass
    else
      match env.num(ExprOf(b, attr))
      case Failure(e) => Fail(e)
      case Success(v) => Ok(if v in allowed then [] else [Issue(rule, msg, ExprOf(b, attr).range)])
  }

  method CheckIntAmong(runner: Runner, rule: string, b: Block, attr: string, allowed: set<int>, msg: Message)
    returns (err: Option<Error>)
    modifies runner
    ensures Produced(runner, old(runner.issues), err, IntAmong(rule, b, runner.env, attr, allowed, msg))
  {
    err := None;
    if attr in b.body.attributes {
      var x := b.body.attributes[attr].expr;
      var r := runner.EvaluateInt(x);
      if r.Failure? {
        return Some(r.error);
      }
      if r.value !in allowed {
        runner.EmitIssue(rule, msg, x.range);
      }
    }
  }

  /** `var v float64; ...; if v <= 0 { EmitIssue }`, an evaluation error ending the check. */
  function FloatPositive(rule: string, b: Block, env: Env, attr: string, msg: Message): Outcome {
    if !Has(b, attr) then Pass
    else
      match env.float(ExprOf(b, attr))
      case Failure(e) => Fail(e)
      case Success(v) => Ok(if v <= 0.0 then [Issue(rule, msg, ExprOf(b, attr).range)] else [])
  }

  method CheckFloatPositive(runner: Runner, rule: string, b: Block, attr: string, msg: Message)
    returns (err: Option<Error>)
    modifies runner
    ensures Produced(runner, old(runner.issues), err, FloatPositive(rule, b, runner.env, attr, msg))
  {
    err := None;
    if attr in b.body.attributes {
      var x := b.body.attributes[attr].expr;
      var r := runner.EvaluateFloat(x);
      if r.Failure? {
        return Some(r.error);
      }
      if r.value <= 0.0 {
        runner.EmitIssue(rule, msg, x.range);
      }
    }
  }

  /** Some element of `vs` lies outside `lo..hi`. */
  predicate SomeOutside(vs: seq<int>, lo: int, hi: int) {
    exists j :: 0 <= j < |vs| && !(lo <= vs[j] <= hi)
  }

  /**
   * `for _, v := range vs { if v < lo || v > hi { EmitIssue; break } }` over
   * an evaluated integer list: one issue at the list's range however many
   * elements are out of range.
   */
  function IntsInRange(rule: string, b: Block, env: Env, attr: string, lo: int, hi: int, msg: Message): Outcome {
    if !Has(b, attr) then Pass
    else
      match env.nums(ExprOf(b, attr))
      case Failure(e) => Fail(e)
      case Success(vs) => Ok(if SomeOutside(vs, lo, hi) then [Issue(rule, msg, ExprOf(b, attr).range)] else [])
  }

  method CheckIntsInRange(runner: Runner, rule: string, b: Block, attr: string, lo: int, hi: int, msg: Message)
    returns (err: Option<Error>)
    modifies runner
    ensures Produced(runner, old(runner.issues), err, IntsInRange(rule, b, runner.env, attr, lo, hi, msg))
  {
    err := None;
    if attr in b.body.attributes {
      var x := b.body.attributes[attr].expr;
      var r := runner.EvaluateInts(x);
      if r.Failure? {
        return Some(r.error);
      }
      var vs := r.value;
      var i := 0;
      while i < |vs|
        invariant 0 <= i <= |vs|
        invariant forall j :: 0 <= j < i ==> lo <= vs[j] <= hi
        invariant runner.issues == old(runner.issues)
      {
        if vs[i] < lo || vs[i] > hi {
          runner.EmitIssue(rule, msg, x.range);
          break;
        }
        i := i + 1;
      }
    }
  }

  /** Some element of `vs` is not an IPv4 address. */
  predicate SomeNotIPv4(env: Env, vs: seq<GoString>) {
    exists j :: 0 <= j < |vs| && !IsValidIPv4(env, vs[j])
  }

  /**
   * `for _, ip := range ips { if !isValidIPv4(ip) { EmitIssue; break } }` over
   * an evaluated string list: one issue at the list's range however many
   * elements are invalid.
   */
  function IPv4s(rule: string, b: Block, env: Env, attr: string, msg: Message): Outcome {
    if !Has(b, attr) then Pass
    else
      match env.strs(ExprOf(b, attr))
      case Failure(e) => Fail(e)
      case Success(vs) => Ok(if SomeNotIPv4(env, vs) then [Issue(rule, msg, ExprOf(b, attr).range)] else [])
  }

  method CheckIPv4s(runner: Runner, rule: string, b: Block, attr: string, msg: Message)
    returns (err: Option<Error>)
    modifies runner
    ensures Produced(runner, old(runner.issues), err, IPv4s(rule, b, runner.env, attr, msg))
  {
    err := None;
    if attr in b.body.attributes {
      var x := b.body.attributes[attr].expr;
      var r := runner.EvaluateStrings(x);
      if r.Failure? {
        return Some(r.error);
      }
      var vs := r.value;
      var i := 0;
      while i < |vs|
        invariant 0 <= i <= |vs|
        invariant forall j :: 0 <= j < i ==> IsValidIPv4(runner.env, vs[j])
        invariant runner.issues == old(runner.issues)
      {
        if !IsValidIPv4(runner.env, vs[i]) {
          runner.EmitIssue(rule, msg, x.range);
          break;
        }
        i := i + 1;
      }
    }
  }

  /** A present string list evaluates and holds IPv4 addresses only. */
  predicate AllIPv4(b: Block, env: Env, attr: string) {
    Has(b, attr) ==>
      && env.strs(ExprOf(b, attr)).Success?
      && forall j :: 0 <= j < |env.strs(ExprOf(b, attr)).value| ==> IsValidIPv4(env, env.strs(ExprOf(b, attr)).value[j])
  }

  lemma IPv4sPass(rule: string, b: Block, env: Env, attr: string, msg: Message)
    ensures IPv4s(rule, b, env, attr, msg) == Pass <==> AllIPv4(b, env, attr)
  {
  }

  /** A present bool attribute is only evaluated: no value yields an issue, a failure ends the check. */
  function Flag(b: Block, env: Env, attr: string): Outcome {
    if !Has(b, attr) then Pass
    else
      match env.flag(ExprOf(b, attr))
      case Failure(e) => Fail(e)
      case Success(_) => Pass
  }

  method CheckFlag(runner: Runner, b: Block, attr: string) returns (err: Option<Error>)
    ensures err == Flag(b, runner.env, attr).err
  {
    err := None;
    if attr in b.body.attributes {
      var r := runner.EvaluateBool(b.body.attributes[attr].expr);
      if r.Failure? {
        return Some(r.error);
      }
    }
  }

  /** A flag never yields an issue; only its evaluation error can end the check. */
  lemma FlagNeverReports(b: Block, env: Env, attr: string)
    ensures Flag(b, env, attr).issues == []
    ensures Flag(b, env, attr).err.Some? <==> Has(b, attr) && env.flag(ExprOf(b, attr)).Failure?
  {
  }

  // ---------------------------------------------------------------------------
  // What each check accepts: a present attribute that evaluates to a value
  // the check allows. Each check passes (no issue, no error) exactly then.

  /** A present string attribute evaluates. */
  predicate StrEvaluates(b: Block, env: Env, attr: string) {
    Has(b, attr) ==> env.str(ExprOf(b, attr)).Success?
  }

  /** A present string attribute evaluates to a member of `allowed`. */
  predicate StrIn(b: Block, env: Env, attr: string, allowed: set<GoString>) {
    Has(b, attr) ==> env.str(ExprOf(b, attr)).Success? && env.str(ExprOf(b, attr)).value in allowed
  }

  /** `StrIn`, and the selecting value comes with its companion attribute. */
  predicate StrInNeeding(b: Block, env: Env, attr: string, allowed: set<GoString>, trigger: GoString, needed: string) {
    && StrIn(b, env, attr, allowed)
    && (Has(b, attr) && env.str(ExprOf(b, attr)).Success? && env.str(ExprOf(b, attr)).value == trigger ==> Has(b, needed))
  }

  /** A present string attribute evaluates to a value `ok` accepts. */
  predicate StrIs(b: Block, env: Env, attr: string, ok: GoString -> bool) {
    Has(b, attr) ==> env.str(ExprOf(b, attr)).Success? && ok(env.str(ExprOf(b, attr)).value)
  }

  /** A present address evaluates and `isValidIPv4` accepts it. */
  predicate IPv4Ok(b: Block, env: Env, attr: string) {
    Has(b, attr) ==> env.str(ExprOf(b, attr)).Success? && IsValidIPv4(env, env.str(ExprOf(b, attr)).value)
  }

  /** A present list-of-strings attribute evaluates to a list `ok` accepts. */
  predicate ListIs(b: Block, env: Env, attr: string, ok: seq<GoString> -> bool) {
    Has(b, attr) ==> env.strs(ExprOf(b, attr)).Success? && ok(env.strs(ExprOf(b, attr)).value)
  }

  /** A present integer list evaluates and every element lies in `lo..hi`. */
  predicate AllInRange(b: Block, env: Env, attr: string, lo: int, hi: int) {
    Has(b, attr) ==>
      && env.nums(ExprOf(b, attr)).Success?
      && forall j :: 0 <= j < |env.nums(ExprOf(b, attr)).value| ==> lo <= env.nums(ExprOf(b, attr)).value[j] <= hi
  }

  /** A present integer attribute evaluates to a value `ok` accepts. */
  predicate IntIs(b: Block, env: Env, attr: string, ok: int -> bool) {
    Has(b, attr) ==> env.num(ExprOf(b, attr)).Success? && ok(env.num(ExprOf(b, attr)).value)
  }

  /** A present name evaluates to between 1 and 63 bytes. */
  predicate NameOk(b: Block, env: Env, attr: string) {
    Has(b, attr) ==> env.str(ExprOf(b, attr)).Success? && 0 < |env.str(ExprOf(b, attr)).value| <= MaxNameLength
  }

  /** A present integer attribute evaluates into `lo..hi`. */
  predicate IntIn(b: Block, env: Env, attr: string, lo: int, hi: int) {
    Has(b, attr) ==> env.num(ExprOf(b, attr)).Success? && lo <= env.num(ExprOf(b, attr)).value <= hi
  }

  /** A present integer attribute evaluates to at least `lo`. */
  predicate IntFrom(b: Block, env: Env, attr: string, lo: int) {
    Has(b, attr) ==> env.num(ExprOf(b, attr)).Success? && lo <= env.num(ExprOf(b, attr)).value
  }

  /** A present integer attribute evaluates to a member of `allowed`. */
  predicate IntInSet(b: Block, env: Env, attr: string, allowed: set<int>) {
    Has(b, attr) ==> env.num(ExprOf(b, attr)).Success? && env.num(ExprOf(b, attr)).value in allowed
  }

  /** A present integer attribute that evaluates lies in `lo..hi`; a failed evaluation is let through. */
  predicate IntInIfEvaluates(b: Block, env: Env, attr: string, lo: int, hi: int) {
    Has(b, attr) && env.num(ExprOf(b, attr)).Success? ==> lo <= env.num(ExprOf(b, attr)).value <= hi
  }

  /** A present list attribute evaluates and every element is accepted. */
  predicate AllElements(b: Block, env: Env, attr: string, ok: GoString -> bool) {
    Has(b, attr) ==>
      && env.strs(ExprOf(b, attr)).Success?
      && forall i :: 0 <= i < |env.strs(ExprOf(b, attr)).value| ==> ok(env.strs(ExprOf(b, attr)).value[i])
  }

  lemma NamedElementsPass(rule: string, b: Block, env: Env, attr: string, ok: GoString -> bool, t: Template)
    ensures NamedElements(rule, b, env, attr, ok, t) == Pass <==> AllElements(b, env, attr, ok)
  {
    if Has(b, attr) && env.strs(ExprOf(b, attr)).Success? {
      var vs := env.strs(ExprOf(b, attr)).value;
      NamedElementIssuesName(vs, ok, rule, t, ExprOf(b, attr).range);
      if Rejected(vs, ok) != [] {
        assert Rejected(vs, ok)[0] in Rejected(vs, ok);
      }
      if exists i :: 0 <= i < |vs| && !ok(vs[i]) {
        var i :| 0 <= i < |vs| && !ok(vs[i]);
        assert vs[i] in Rejected(vs, ok);
      }
    }
  }

  lemma ElementsPass(rule: string, b: Block, env: Env, attr: string, ok: GoString -> bool, msg: Message)
    ensures Elements(rule, b, env, attr, ok, msg) == Pass <==> AllElements(b, env, attr, ok)
  {
    if Has(b, attr) && env.strs(ExprOf(b, attr)).Success? {
      ElementIssuesNone(env.strs(ExprOf(b, attr)).value, ok, Issue(rule, msg, ExprOf(b, attr).range));
    }
  }

  lemma EnumNeedingPass(rule: string, b: Block, env: Env, attr: string, allowed: set<GoString>, msg: Message,
                        trigger: GoString, needed: string, neededMsg: Message)
    ensures EnumNeeding(rule, b, env, attr, allowed, msg, trigger, needed, neededMsg) == Pass
        <==> StrInNeeding(b, env, attr, allowed, trigger, needed)
  {
  }

  /** An enum check reports nothing but its own message. */
  lemma EnumReportsOnly(rule: string, b: Block, env: Env, attr: string, allowed: set<GoString>, msg: Message)
    ensures forall iss :: iss in Enum(rule, b, env, attr, allowed, msg).issues ==> iss.message == msg
  {
  }

  lemma EnumPass(rule: string, b: Block, env: Env, attr: string, allowed: set<GoString>, msg: Message)
    ensures Enum(rule, b, env, attr, allowed, msg) == Pass <==> StrIn(b, env, attr, allowed)
  {
  }

  lemma ValidPass(rule: string, b: Block, env: Env, attr: string, ok: GoString -> bool, msg: Message)
    ensures Valid(rule, b, env, attr, ok, msg) == Pass <==> StrIs(b, env, attr, ok)
  {
  }

  lemma IPv4Pass(rule: string, b: Block, env: Env, attr: string, msg: Message)
    ensures IPv4(rule, b, env, attr, msg) == Pass <==> IPv4Ok(b, env, attr)
  {
  }

  lemma ValidListPass(rule: string, b: Block, env: Env, attr: string, ok: seq<GoString> -> bool, msg: Message)
    ensures ValidList(rule, b, env, attr, ok, msg) == Pass <==> ListIs(b, env, attr, ok)
  {
  }

  lemma IntValidPass(rule: string, b: Block, env: Env, attr: string, ok: int -> bool, msg: Message)
    ensures IntValid(rule, b, env, attr, ok, msg) == Pass <==> IntIs(b, env, attr, ok)
  {
  }

  lemma NameLengthPass(rule: string, b: Block, env: Env, attr: string, emptyMsg: Message, longMsg: Message)
    ensures NameLength(rule, b, env, attr, emptyMsg, longMsg) == Pass <==> NameOk(b, env, attr)
  {
  }

  lemma IntRangePass(rule: string, b: Block, env: Env, attr: string, lo: int, hi: int, msg: Message)
    ensures IntRange(rule, b, env, attr, lo, hi, msg) == Pass <==> IntIn(b, env, attr, lo, hi)
  {
  }

  lemma IntAtLeastPass(rule: string, b: Block, env: Env, attr: string, lo: int, msg: Message)
    ensures IntAtLeast(rule, b, env, attr, lo, msg) == Pass <==> IntFrom(b, env, attr, lo)
  {
  }

  lemma IntAmongPass(rule: string, b: Block, env: Env, attr: string, allowed: set<int>, msg: Message)
    ensures IntAmong(rule, b, env, attr, allowed, msg) == Pass <==> IntInSet(b, env, attr, allowed)
  {
  }

  /** A present float attribute evaluates to a positive value. */
  predicate FloatAbove0(b: Block, env: Env, attr: string) {
    Has(b, attr) ==> env.float(ExprOf(b, attr)).Success? && env.float(ExprOf(b, attr)).value > 0.0
  }

  lemma IntsInRangePass(rule: string, b: Block, env: Env, attr: string, lo: int, hi: int, msg: Message)
    ensures IntsInRange(rule, b, env, attr, lo, hi, msg) == Pass <==> AllInRange(b, env, attr, lo, hi)
  {
  }

  lemma FloatPositivePass(rule: string, b: Block, env: Env, attr: string, msg: Message)
    ensures FloatPositive(rule, b, env, attr, msg) == Pass <==> FloatAbove0(b, env, attr)
  {
  }

  lemma FlagPass(b: Block, env: Env, attr: string)
    ensures Flag(b, env, attr) == Pass <==> (Has(b, attr) ==> env.flag(ExprOf(b, attr)).Success?)
  {
  }

  /**
   * A skipping range check reports a present attribute only when it
   * evaluates to a value outside the range; a failed evaluation is silent.
   */
  lemma IntRangeIfEvaluatesIff(rule: string, b: Block, env: Env, attr: string, lo: int, hi: int, msg: Message)
    ensures IntRangeIfEvaluates(rule, b, env, attr, lo, hi, msg) == [] <==> IntInIfEvaluates(b, env, attr, lo, hi)
    ensures |IntRangeIfEvaluates(rule, b, env, attr, lo, hi, msg)| <= 1
  {
  }
}
