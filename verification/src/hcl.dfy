/**
 * The parts of HCL and of the tflint plugin SDK that the rules consult.
 * Parsing, schema filtering and expression evaluation are not modelled:
 * a resource arrives as an already decoded `Block`, and every evaluation
 * is answered by an oracle held in `Env`.
 */
module Hcl {
  import opened Wrappers

  /** A source range; the rules only pass ranges through, so they stay opaque. */
  datatype Range = Range(filename: string, startByte: nat, endByte: nat)

  /**
   * An attribute expression. `elements` holds the element expressions when the
   * expression is a static list (what `hcl.ExprList` succeeds on), `None` otherwise.
   */
  datatype Expr = Expr(id: nat, range: Range, elements: Option<seq<Expr>>)

  datatype Attribute = Attribute(name: string, expr: Expr, range: Range)

  /** `hclext.BodyContent`: present attributes by name, nested blocks in source order. */
  datatype Body = Body(attributes: map<string, Attribute>, blocks: seq<Block>)

  /** `hclext.Block`: a resource or a nested block. */
  datatype Block = Block(typ: string, labels: seq<string>, body: Body, defRange: Range)

  /** A byte of a Go string, carried as a character below 256. */
  type Octet = c: char | c as int < 0x100

  /** A Go string value: one element per byte, so Go's `len(s)` is `|s|`. */
  type GoString = seq<Octet>

  /** The errors a `Check` can return. */
  datatype Error =
    | Diagnostics(summary: string)              // from GetResourceContent or EvaluateExpr
    | IndexOutOfRange(index: nat, length: nat)  // a Go runtime panic on a slice index

  /**
   * The oracles a rule consults: `EvaluateExpr` into each Go target type the
   * rules use, and the success of `net.ParseIP` (foreign code).
   */
  datatype Env = Env(
    str: Expr -> Result<GoString, Error>,
    num: Expr -> Result<int, Error>,
    float: Expr -> Result<real, Error>,
    flag: Expr -> Result<bool, Error>,
    strs: Expr -> Result<seq<GoString>, Error>,
    nums: Expr -> Result<seq<int>, Error>,
    parseIP: GoString -> bool)

  predicate Has(b: Block, name: string) {
    name in b.body.attributes
  }

  /** The expression of a present attribute. */
  function ExprOf(b: Block, name: string): Expr
    requires Has(b, name)
  {
    b.body.attributes[name].expr
  }

  /** Whether some block of `bs` has type `typ`, scanning from the end. */
  predicate AnyOfType(bs: seq<Block>, typ: string)
    decreases |bs|
  {
    |bs| > 0 && (AnyOfType(bs[..|bs| - 1], typ) || bs[|bs| - 1].typ == typ)
  }

  lemma {:induction false} AnyOfTypeIff(bs: seq<Block>, typ: string)
    ensures AnyOfType(bs, typ) <==> exists i :: 0 <= i < |bs| && bs[i].typ == typ
    decreases |bs|
  {
    if |bs| > 0 {
      var init := bs[..|bs| - 1];
      AnyOfTypeIff(init, typ);
      if AnyOfType(init, typ) {
        var i :| 0 <= i < |init| && init[i].typ == typ;
        assert bs[i].typ == typ;
      }
      if exists i :: 0 <= i < |bs| && bs[i].typ == typ {
        var i :| 0 <= i < |bs| && bs[i].typ == typ;
        if i < |init| {
          assert init[i].typ == typ;
        }
      }
    }
  }

  /** One more block scanned. */
  lemma AnyOfTypeStep(bs: seq<Block>, i: nat, typ: string)
    requires i < |bs|
    ensures AnyOfType(bs[..i + 1], typ) == (AnyOfType(bs[..i], typ) || bs[i].typ == typ)
  {
    assert bs[..i + 1][..i] == bs[..i];
  }

  /** Whether some nested block of `b` has type `typ`. */
  predicate HasBlock(b: Block, typ: string) {
    AnyOfType(b.body.blocks, typ)
  }

  /** The position of the first block of type `typ`, or `|bs|` when there is none. */
  function FirstOfType(bs: seq<Block>, typ: string): (k: nat)
    ensures k <= |bs|
    ensures forall j :: 0 <= j < k ==> bs[j].typ != typ
    ensures k < |bs| ==> bs[k].typ == typ
    decreases |bs|
  {
    if bs == [] then 0
    else if bs[0].typ == typ then 0
    else 1 + FirstOfType(bs[1..], typ)
  }

  /** A block of the type exists exactly when the search stops before the end. */
  lemma FirstOfTypeFound(bs: seq<Block>, typ: string)
    ensures FirstOfType(bs, typ) < |bs| <==> AnyOfType(bs, typ)
  {
    AnyOfTypeIff(bs, typ);
  }
}
