/**
 * The expression tree of glox (glox/expr.go) and its S-expression printer.
 *
 * In Go an expression is `any` and the printer switches on the dynamic type; here
 * the four variants are the constructors of one datatype, so every expression the
 * printer meets is one of them.
 */
module Ast {
  import opened Tokens

  datatype Expr =
    | Unary(op: Token, right: Expr)
    | Binary(left: Expr, op: Token, right: Expr)
    | Literal(value: Value)
    | Grouping(inner: Expr)

  /**
   * How `fmt.Sprint` prints a literal's value: a text payload (a string's bytes or
   * a number's lexeme) comes out unchanged, and `nil` and the booleans print as
   * Go's keywords.
   */
  function ValueString(v: Value): (s: seq<Byte>)
    ensures v.Str? ==> s == v.s
    ensures !v.Str? ==> s in ["nil", "true", "false"]
  {
    match v
    case NilValue => "nil"
    case Bool(b) => if b then "true" else "false"
    case Str(s) => s
  }

  /** The rendered sub-expressions, each preceded by one space. */
  function SpaceEach(parts: seq<seq<Byte>>): (s: seq<Byte>)
    ensures parts != [] ==> |s| > 0 && s[0] == ' '
  {
    if parts == [] then [] else " " + parts[0] + SpaceEach(parts[1..])
  }

  /** `(name p1 p2 ...)`: what the builder in `parenthesize` produces from the rendered parts. */
  function Parenthesize(name: seq<Byte>, parts: seq<seq<Byte>>): (s: seq<Byte>)
    ensures |s| >= 2 && s[0] == '(' && s[|s| - 1] == ')'
    ensures s[1..|s| - 1] == name + SpaceEach(parts)
  {
    "(" + name + SpaceEach(parts) + ")"
  }

  /** `ExprToString`: operators by their lexeme, groupings as `group`, literals as printed. */
  function ExprToString(e: Expr): (s: seq<Byte>)
    ensures !e.Literal? ==> |s| >= 2 && s[0] == '(' && s[|s| - 1] == ')'
  {
    match e
    case Unary(op, right) => Parenthesize(op.lexeme, [ExprToString(right)])
    case Binary(left, op, right) => Parenthesize(op.lexeme, [ExprToString(left), ExprToString(right)])
    case Literal(v) => ValueString(v)
    case Grouping(inner) => Parenthesize("group", [ExprToString(inner)])
  }

  // ---------------------------------------------------------------------------
  // The shape of the output

  /** One space before each part, and nothing else between them. */
  lemma {:induction false} SpaceEachLength(parts: seq<seq<Byte>>)
    ensures |SpaceEach(parts)| == |parts| + SumLengths(parts)
  {
    if parts != [] {
      SpaceEachLength(parts[1..]);
    }
  }

  function SumLengths(parts: seq<seq<Byte>>): nat {
    if parts == [] then 0 else |parts[0]| + SumLengths(parts[1..])
  }

  /** `parenthesize` with one sub-expression: one space between the name and it. */
  lemma ParenthesizeOne(name: seq<Byte>, a: seq<Byte>)
    ensures Parenthesize(name, [a]) == "(" + name + " " + a + ")"
  {
    var none: seq<seq<Byte>> := [];
    assert [a][1..] == none;
    assert SpaceEach([a]) == " " + a;
  }

  /** `parenthesize` with two sub-expressions: one space before each. */
  lemma ParenthesizeTwo(name: seq<Byte>, a: seq<Byte>, b: seq<Byte>)
    ensures Parenthesize(name, [a, b]) == "(" + name + " " + a + " " + b + ")"
  {
    var none: seq<seq<Byte>> := [];
    assert [a, b][1..] == [b];
    assert [b][1..] == none;
    assert SpaceEach([b]) == " " + b + [];
    assert SpaceEach([a, b]) == " " + a + SpaceEach([b]);
  }

  /** The three compound variants, written out. */
  lemma RenderCompound(op: Token, a: Expr, b: Expr)
    ensures ExprToString(Unary(op, a)) == "(" + op.lexeme + " " + ExprToString(a) + ")"
    ensures ExprToString(Binary(a, op, b)) ==
              "(" + op.lexeme + " " + ExprToString(a) + " " + ExprToString(b) + ")"
    ensures ExprToString(Grouping(a)) == "(group " + ExprToString(a) + ")"
  {
    RenderUnary(op, a);
    RenderBinary(op, a, b);
    RenderGrouping(a);
  }

  lemma RenderUnary(op: Token, a: Expr)
    ensures ExprToString(Unary(op, a)) == "(" + op.lexeme + " " + ExprToString(a) + ")"
  {
    ParenthesizeOne(op.lexeme, ExprToString(a));
  }

  lemma RenderBinary(op: Token, a: Expr, b: Expr)
    ensures ExprToString(Binary(a, op, b)) ==
              "(" + op.lexeme + " " + ExprToString(a) + " " + ExprToString(b) + ")"
  {
    ParenthesizeTwo(op.lexeme, ExprToString(a), ExprToString(b));
  }

  lemma RenderGrouping(a: Expr)
    ensures ExprToString(Grouping(a)) == "(group " + ExprToString(a) + ")"
  {
    var sa := ExprToString(a);
    ParenthesizeOne("group", sa);
    assert "(" + "group" + " " + sa + ")" == "(group " + sa + ")";
  }

  /** Literals print as their value, with `nil` for the missing value. */
  lemma RenderLiteral(v: Value)
    ensures ExprToString(Literal(v)) == (if v.NilValue? then "nil" else ValueString(v))
    ensures v.Bool? ==> ExprToString(Literal(v)) == (if v.b then "true" else "false")
    ensures v.Str? ==> ExprToString(Literal(v)) == v.s
  {
  }

  // ---------------------------------------------------------------------------
  // Balanced parentheses

  /** Opening minus closing parentheses in `s`. */
  function Net(s: seq<Byte>): int {
    if s == [] then 0
    else Net(s[..|s| - 1]) + (if s[|s| - 1] == '(' then 1 else if s[|s| - 1] == ')' then -1 else 0)
  }

  /** Every prefix closes no more parentheses than it opens, and the whole closes them all. */
  predicate Balanced(s: seq<Byte>) {
    Net(s) == 0 && forall k | 0 <= k <= |s| :: Net(s[..k]) >= 0
  }

  predicate ParenFree(s: seq<Byte>) {
    forall k | 0 <= k < |s| :: s[k] != '(' && s[k] != ')'
  }

  /** Every operator lexeme and every printed literal is free of parentheses. */
  predicate PlainLeaves(e: Expr) {
    match e
    case Unary(op, right) => ParenFree(op.lexeme) && PlainLeaves(right)
    case Binary(left, op, right) => ParenFree(op.lexeme) && PlainLeaves(left) && PlainLeaves(right)
    case Literal(v) => ParenFree(ValueString(v))
    case Grouping(inner) => PlainLeaves(inner)
  }

  lemma {:induction false} NetAppend(a: seq<Byte>, b: seq<Byte>)
    ensures Net(a + b) == Net(a) + Net(b)
    decreases |b|
  {
    if b != [] {
      assert (a + b)[..|a + b| - 1] == a + b[..|b| - 1];
      NetAppend(a, b[..|b| - 1]);
    } else {
      assert a + b == a;
    }
  }

  lemma {:induction false} ParenFreeBalanced(s: seq<Byte>)
    requires ParenFree(s)
    ensures forall k | 0 <= k <= |s| :: Net(s[..k]) == 0
    ensures Balanced(s)
    decreases |s|
  {
    if s != [] {
      var t := s[..|s| - 1];
      assert ParenFree(t);
      ParenFreeBalanced(t);
      forall k | 0 <= k <= |s| ensures Net(s[..k]) == 0 {
        if k < |s| {
          assert s[..k] == t[..k];
        } else {
          assert s[..k] == s;
          assert s[..|s| - 1] == t[..|t|];
        }
      }
    }
  }

  lemma BalancedConcat(a: seq<Byte>, b: seq<Byte>)
    requires Balanced(a) && Balanced(b)
    ensures Balanced(a + b)
  {
    NetAppend(a, b);
    forall k | 0 <= k <= |a + b| ensures Net((a + b)[..k]) >= 0 {
      if k <= |a| {
        assert (a + b)[..k] == a[..k];
      } else {
        assert (a + b)[..k] == a + b[..k - |a|];
        assert a[..|a|] == a;
        NetAppend(a, b[..k - |a|]);
      }
    }
  }

  lemma BalancedWrap(m: seq<Byte>)
    requires Balanced(m)
    ensures Balanced("(" + m + ")")
  {
    var s := "(" + m + ")";
    NetAppend("(", m);
    NetAppend("(" + m, ")");
    assert Net("(") == 1 by {
      assert "("[..0] == [];
    }
    assert Net(")") == -1 by {
      assert ")"[..0] == [];
    }
    forall k | 0 <= k <= |s| ensures Net(s[..k]) >= 0 {
      if k == 0 {
        assert s[..k] == [];
      } else if k <= |m| + 1 {
        assert s[..k] == "(" + m[..k - 1];
        NetAppend("(", m[..k - 1]);
      } else {
        assert s[..k] == s;
      }
    }
  }

  lemma {:induction false} SpaceEachBalanced(parts: seq<seq<Byte>>)
    requires forall i | 0 <= i < |parts| :: Balanced(parts[i])
    ensures Balanced(SpaceEach(parts))
    decreases |parts|
  {
    if parts == [] {
      var empty: seq<Byte> := [];
      assert SpaceEach(parts) == empty;
      assert empty[..0] == empty;
    } else {
      SpaceEachBalanced(parts[1..]);
      ParenFreeBalanced(" ");
      BalancedConcat(" ", parts[0]);
      BalancedConcat(" " + parts[0], SpaceEach(parts[1..]));
    }
  }

  lemma ParenthesizeBalanced(name: seq<Byte>, parts: seq<seq<Byte>>)
    requires ParenFree(name)
    requires forall i | 0 <= i < |parts| :: Balanced(parts[i])
    ensures Balanced(Parenthesize(name, parts))
  {
    ParenFreeBalanced(name);
    SpaceEachBalanced(parts);
    BalancedConcat(name, SpaceEach(parts));
    BalancedWrap(name + SpaceEach(parts));
    assert Parenthesize(name, parts) == "(" + (name + SpaceEach(parts)) + ")";
  }

  /**
   * The printer's output is a well-formed S-expression: when no operator lexeme and
   * no literal contains a parenthesis, the parentheses of the output balance.
   */
  lemma {:induction false} RenderBalanced(e: Expr)
    requires PlainLeaves(e)
    ensures Balanced(ExprToString(e))
    decreases e
  {
    match e
    case Unary(op, right) =>
      RenderBalanced(right);
      WrapOneBalanced(op.lexeme, ExprToString(right));
    case Binary(left, op, right) =>
      RenderBalanced(left);
      RenderBalanced(right);
      WrapTwoBalanced(op.lexeme, ExprToString(left), ExprToString(right));
    case Literal(v) =>
      ParenFreeBalanced(ValueString(v));
    case Grouping(inner) =>
      RenderBalanced(inner);
      WrapOneBalanced("group", ExprToString(inner));
  }

  lemma WrapOneBalanced(name: seq<Byte>, a: seq<Byte>)
    requires ParenFree(name) && Balanced(a)
    ensures Balanced(Parenthesize(name, [a]))
  {
    ParenthesizeBalanced(name, [a]);
  }

  lemma WrapTwoBalanced(name: seq<Byte>, a: seq<Byte>, b: seq<Byte>)
    requires ParenFree(name) && Balanced(a) && Balanced(b)
    ensures Balanced(Parenthesize(name, [a, b]))
  {
    ParenthesizeBalanced(name, [a, b]);
  }
}
