/**
 * What a rule's `Check` produces: the issues it emits through
 * `runner.EmitIssue`, in order, and the error it returns, if any.
 */
module Tflint {
  import opened Wrappers
  import opened Hcl

  /**
   * An issue message. Most messages are fixed text; the others are a
   * `fmt.Sprintf` with one `%s`, kept as the text around it and the argument.
   */
  datatype Message = Text(text: string) | Format(prefix: string, arg: string, suffix: string)

  /** The message text as Go prints it. */
  function Render(m: Message): string {
    match m
    case Text(t) => t
    case Format(p, a, s) => p + a + s
  }

  /** A `%s` format with its argument still open, e.g. "`%s` attribute must be specified". */
  datatype Template = Template(prefix: string, suffix: string)

  function Fill(t: Template, arg: string): Message {
    Format(t.prefix, arg, t.suffix)
  }

  /** One `runner.EmitIssue(rule, message, range)` call. */
  datatype Issue = Issue(rule: string, message: Message, range: Range)

  /** The issues a piece of a `Check` emits, and the error it ends with (if any). */
  datatype Outcome = Outcome(issues: seq<Issue>, err: Option<Error>)

  const Pass := Outcome([], None)

  function Ok(issues: seq<Issue>): Outcome {
    Outcome(issues, None)
  }

  function Fail(e: Error): Outcome {
    Outcome([], Some(e))
  }

  /**
   * Sequential composition: `next` runs only when `first` did not return an
   * error, and the issues emitted before an error stay emitted.
   */
  function Then(first: Outcome, next: Outcome): Outcome {
    if first.err.Some? then first else Outcome(first.issues + next.issues, next.err)
  }

  /** A `for _, block := range bs` loop whose body is `f` and that returns the first error. */
  function ForEach(bs: seq<Block>, env: Env, f: (Block, Env) -> Outcome): Outcome
    decreases |bs|
  {
    if bs == [] then Pass else Then(ForEach(bs[..|bs| - 1], env, f), f(bs[|bs| - 1], env))
  }

  /** A whole `Check`: fetch the resources of type `typ`, then check each in turn. */
  function RunRule(content: string -> Result<seq<Block>, Error>, typ: string, env: Env,
                   f: (Block, Env) -> Outcome): Outcome
  {
    match content(typ)
    case Failure(e) => Fail(e)
    case Success(bs) => ForEach(bs, env, f)
  }

  /** A composition passes exactly when both parts pass. */
  lemma ThenPass(first: Outcome, next: Outcome)
    ensures Then(first, next) == Pass <==> first == Pass && next == Pass
  {
  }

  /** Every issue of a composition comes from one of its parts. */
  lemma ThenIssues(first: Outcome, next: Outcome)
    ensures forall iss :: iss in Then(first, next).issues ==> iss in first.issues || iss in next.issues
  {
  }

  /** Unrolling one iteration of a `ForEach` loop. */
  lemma ForEachStep(bs: seq<Block>, i: nat, env: Env, f: (Block, Env) -> Outcome)
    requires i < |bs|
    ensures ForEach(bs[..i + 1], env, f) == Then(ForEach(bs[..i], env, f), f(bs[i], env))
  {
    assert bs[..i + 1][..i] == bs[..i];
  }

  /** Appending a later part's issues to what an error-free earlier part left. */
  lemma Extend(before: seq<Issue>, done: Outcome, next: Outcome)
    requires done.err.None?
    ensures before + done.issues + next.issues == before + Then(done, next).issues
    ensures Then(done, next).err == next.err
  {
  }

  /** One more iteration of a block loop that runs after an error-free `done`. */
  lemma ForEachExtend(before: seq<Issue>, done: Outcome, bs: seq<Block>, i: nat, env: Env, f: (Block, Env) -> Outcome)
    requires i < |bs|
    requires Then(done, ForEach(bs[..i], env, f)).err.None?
    ensures before + Then(done, ForEach(bs[..i], env, f)).issues + f(bs[i], env).issues
         == before + Then(done, ForEach(bs[..i + 1], env, f)).issues
    ensures Then(done, ForEach(bs[..i + 1], env, f)).err == f(bs[i], env).err
  {
    ForEachStep(bs, i, env, f);
  }

  /** One more iteration of a block loop. */
  lemma ForEachAppend(before: seq<Issue>, bs: seq<Block>, i: nat, env: Env, f: (Block, Env) -> Outcome)
    requires i < |bs|
    requires ForEach(bs[..i], env, f).err.None?
    ensures before + ForEach(bs[..i], env, f).issues + f(bs[i], env).issues
         == before + ForEach(bs[..i + 1], env, f).issues
    ensures ForEach(bs[..i + 1], env, f).err == f(bs[i], env).err
  {
    ForEachStep(bs, i, env, f);
  }

  /** A loop over blocks passes exactly when its body passes on every block. */
  lemma {:induction false} ForEachPass(bs: seq<Block>, env: Env, f: (Block, Env) -> Outcome)
    ensures ForEach(bs, env, f) == Pass <==> forall i :: 0 <= i < |bs| ==> f(bs[i], env) == Pass
    decreases |bs|
  {
    if bs != [] {
      var init := bs[..|bs| - 1];
      ForEachPass(init, env, f);
      ThenPass(ForEach(init, env, f), f(bs[|bs| - 1], env));
      if forall i :: 0 <= i < |init| ==> f(init[i], env) == Pass {
        assert forall i :: 0 <= i < |bs| - 1 ==> f(bs[i], env) == f(init[i], env);
      }
    }
  }

  /**
   * Once some iteration returns an error, the loop's result is fixed: later
   * blocks are neither checked nor reported on.
   */
  lemma {:induction false} ForEachStopsAtError(bs: seq<Block>, k: nat, env: Env, f: (Block, Env) -> Outcome)
    requires k <= |bs|
    requires ForEach(bs[..k], env, f).err.Some?
    ensures ForEach(bs, env, f) == ForEach(bs[..k], env, f)
    decreases |bs|
  {
    if k < |bs| {
      var init := bs[..|bs| - 1];
      assert init[..k] == bs[..k];
      ForEachStopsAtError(init, k, env, f);
    } else {
      assert bs[..k] == bs;
    }
  }

  /** A block whose check returns an error makes the whole loop return one. */
  lemma {:induction false} ForEachFails(bs: seq<Block>, k: nat, env: Env, f: (Block, Env) -> Outcome)
    requires k < |bs| && f(bs[k], env).err.Some?
    ensures ForEach(bs, env, f).err.Some?
    decreases |bs|
  {
    var init := bs[..|bs| - 1];
    if k < |bs| - 1 {
      assert init[k] == bs[k];
      ForEachFails(init, k, env, f);
    }
  }

  /** When no iteration fails, the loop emits every block's issues, in block order. */
  lemma {:induction false} ForEachNoError(bs: seq<Block>, env: Env, f: (Block, Env) -> Outcome)
    requires forall i :: 0 <= i < |bs| ==> f(bs[i], env).err.None?
    ensures ForEach(bs, env, f).err.None?
    ensures ForEach(bs, env, f).issues == Concat(bs, env, f)
    decreases |bs|
  {
    if bs != [] {
      var init := bs[..|bs| - 1];
      assert forall i :: 0 <= i < |init| ==> init[i] == bs[i];
      ForEachNoError(init, env, f);
    }
  }

  /** A message that no single block's outcome carries is absent from the whole loop's. */
  lemma {:induction false} ForEachAvoids(bs: seq<Block>, env: Env, f: (Block, Env) -> Outcome, m: Message)
    requires forall i :: 0 <= i < |bs| ==> forall iss :: iss in f(bs[i], env).issues ==> iss.message != m
    ensures forall iss :: iss in ForEach(bs, env, f).issues ==> iss.message != m
    decreases |bs|
  {
    if |bs| > 0 {
      var init := bs[..|bs| - 1];
      ForEachAvoids(init, env, f, m);
    }
  }

  /** When the loop returns no error, it ran every block's check and kept all of that block's issues. */
  lemma {:induction false} ForEachIncludes(bs: seq<Block>, env: Env, f: (Block, Env) -> Outcome, k: nat)
    requires k < |bs| && ForEach(bs, env, f).err.None?
    ensures f(bs[k], env).err.None?
    ensures forall iss :: iss in f(bs[k], env).issues ==> iss in ForEach(bs, env, f).issues
    decreases |bs|
  {
    var init := bs[..|bs| - 1];
    if k < |bs| - 1 {
      assert init[k] == bs[k];
      ForEachIncludes(init, env, f, k);
    }
  }

  /** An issue absent from `before` is counted in `before + after` as often as in `after`. */
  lemma CountAfter(before: seq<Issue>, after: seq<Issue>, x: Issue)
    requires x !in before
    ensures multiset(before + after)[x] == multiset(after)[x]
  {
    assert multiset(before + after) == multiset(before) + multiset(after);
  }

  /** All issues of all blocks, in block order (a reference for `ForEach`). */
  function Concat(bs: seq<Block>, env: Env, f: (Block, Env) -> Outcome): seq<Issue>
    decreases |bs|
  {
    if bs == [] then [] else Concat(bs[..|bs| - 1], env, f) + f(bs[|bs| - 1], env).issues
  }

  /**
   * The host side of a plugin: resource content and expression evaluation are
   * oracles, and `issues` is the list that `EmitIssue` appends to.
   */
  class Runner {
    const content: string -> Result<seq<Block>, Error>
    const env: Env
    var issues: seq<Issue>

    constructor (content: string -> Result<seq<Block>, Error>, env: Env)
      ensures this.content == content && this.env == env && issues == []
    {
      this.content := content;
      this.env := env;
      issues := [];
    }

    method GetResourceContent(typ: string) returns (r: Result<seq<Block>, Error>)
      ensures r == content(typ)
    {
      r := content(typ);
    }

    method EvaluateString(e: Expr) returns (r: Result<GoString, Error>)
      ensures r == env.str(e)
    {
      r := env.str(e);
    }

    method EvaluateInt(e: Expr) returns (r: Result<int, Error>)
      ensures r == env.num(e)
    {
      r := env.num(e);
    }

    method EvaluateFloat(e: Expr) returns (r: Result<real, Error>)
      ensures r == env.float(e)
    {
      r := env.float(e);
    }

    method EvaluateBool(e: Expr) returns (r: Result<bool, Error>)
      ensures r == env.flag(e)
    {
      r := env.flag(e);
    }

    method EvaluateStrings(e: Expr) returns (r: Result<seq<GoString>, Error>)
      ensures r == env.strs(e)
    {
      r := env.strs(e);
    }

    method EvaluateInts(e: Expr) returns (r: Result<seq<int>, Error>)
      ensures r == env.nums(e)
    {
      r := env.nums(e);
    }

    method EmitIssue(rule: string, message: Message, range: Range)
      modifies this
      ensures issues == old(issues) + [Issue(rule, message, range)]
    {
      issues := issues + [Issue(rule, message, range)];
    }
  }

  /** The runner's list grew by exactly `o`'s issues and the returned error is `o`'s. */
  ghost predicate Produced(r: Runner, before: seq<Issue>, err: Option<Error>, o: Outcome)
    reads r
  {
    r.issues == before + o.issues && err == o.err
  }
}
