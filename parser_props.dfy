/**
 * What the glox expression parser promises (glox/parser.go), stated and proved
 * about the functions that the `Parser` class is proved to follow.
 *
 * The grammar the parser accepts is written out independently as `InLevel`: an
 * expression of a binary level is either a binary node whose operator belongs to
 * that level, whose left operand is again of that level and whose right operand is
 * of the level below, or an expression of the level below. Left associativity and
 * precedence are both read off this: `a - b - c` can only be `(a - b) - c`, and a
 * `+` can never sit directly under a `*`. Two theorems tie the parser to it: every
 * parsed expression is in its grammar (`ParseLevelSound`), and every expression in
 * the grammar is given back by parsing its tokens (`ParseInvertsFlatten`).
 */
module ParsingProps {
  import opened Tokens
  import opened Ast
  import opened Parsing

  // ---------------------------------------------------------------------------
  // Cursor helpers

  /**
   * `match` takes the current token exactly when it has one of the kinds and is
   * neither EOF nor the last token; so it takes at most one token and never EOF.
   */
  lemma MatchAnySpec(ts: seq<Token>, pos: nat, types: seq<TokenType>)
    requires pos < |ts|
    ensures MatchAny(ts, pos, types) <==>
              ts[pos].kind in types && ts[pos].kind != EOF && pos + 1 < |ts|
  {
    if ts[pos].kind in types && ts[pos].kind != EOF && pos + 1 < |ts| {
      var i :| 0 <= i < |types| && types[i] == ts[pos].kind;
      assert CheckKind(ts, pos, types[i]);
    }
  }

  /** `advance` never moves past the last token, and moves exactly when not at the end. */
  lemma AdvanceSpec(ts: seq<Token>, pos: nat)
    requires pos < |ts|
    ensures AdvancePos(ts, pos) <= |ts| - 1
    ensures AdvancePos(ts, pos) == pos + 1 <==> ts[pos].kind != EOF && pos + 1 < |ts|
  {
  }

  /** `Expression` passes over a comment token as if it were not there. */
  lemma ExpressionSkipsComment(ts: seq<Token>, pos: nat)
    requires pos + 1 < |ts| && ts[pos].kind == Comment
    ensures ParseExpression(ts, pos) == ParseExpression(ts, pos + 1)
  {
  }

  /** With no comment in front, `Expression` is `Equality`. */
  lemma ExpressionWithoutComment(ts: seq<Token>, pos: nat)
    requires pos < |ts| && ts[pos].kind != Comment
    ensures ParseExpression(ts, pos) == ParseLevel(ts, pos, 4)
  {
  }

  // ---------------------------------------------------------------------------
  // The grammar

  /** The operator kinds of the four binary levels are pairwise disjoint. */
  lemma OpsDisjoint(k: nat, j: nat, t: TokenType)
    requires 1 <= k <= 4 && 1 <= j <= 4 && k != j
    ensures !(t in Ops(k) && t in Ops(j))
  {
  }

  /** `e` is an expression of level `level`: 0 is `unary`, 1 to 4 the binary levels. */
  predicate InLevel(e: Expr, level: nat)
    requires level <= 4
    decreases e, level
  {
    if level == 0 then
      match e
      case Unary(op, right) => (op.kind == Bang || op.kind == Minus) && InLevel(right, 0)
      case Literal(_) => true
      case Grouping(inner) => InLevel(inner, 4)
      case Binary(_, _, _) => false
    else
      || (e.Binary? && e.op.kind in Ops(level) && InLevel(e.left, level) && InLevel(e.right, level - 1))
      || InLevel(e, level - 1)
  }

  /** Every expression of a level is also one of every looser level. */
  lemma {:induction false} InLevelMonotone(e: Expr, level: nat, higher: nat)
    requires level <= higher <= 4 && InLevel(e, level)
    ensures InLevel(e, higher)
    decreases higher - level
  {
    if level < higher {
      InLevelMonotone(e, level, higher - 1);
    }
  }

  // ---------------------------------------------------------------------------
  // Soundness: what the parser builds is in the grammar

  lemma {:induction false} ParseExpressionSound(ts: seq<Token>, pos: nat)
    requires pos < |ts|
    ensures var r := ParseExpression(ts, pos); r.Parsed? ==> InLevel(r.expr, 4)
    decreases |ts| - pos, 7
  {
    ParseLevelSound(ts, SkipComments(ts, pos), 4);
  }

  /** Each binary level builds an expression of that level. */
  lemma {:induction false} ParseLevelSound(ts: seq<Token>, pos: nat, level: nat)
    requires pos < |ts| && level <= 4
    ensures var r := ParseLevel(ts, pos, level); r.Parsed? ==> InLevel(r.expr, level)
    decreases |ts| - pos, level + 2
  {
    if level == 0 {
      ParseUnarySound(ts, pos);
    } else {
      ParseLevelSound(ts, pos, level - 1);
      var r := ParseLevel(ts, pos, level - 1);
      if r.Parsed? {
        ParseLevelLoopSound(ts, r.next, level, r.expr);
      }
    }
  }

  lemma {:induction false} ParseLevelLoopSound(ts: seq<Token>, pos: nat, level: nat, left: Expr)
    requires pos < |ts| && 1 <= level <= 4 && InLevel(left, level)
    ensures var r := ParseLevelLoop(ts, pos, level, left); r.Parsed? ==> InLevel(r.expr, level)
    decreases |ts| - pos, 0
  {
    if MatchAny(ts, pos, Ops(level)) {
      MatchAnySpec(ts, pos, Ops(level));
      ParseLevelSound(ts, pos + 1, level - 1);
      var r := ParseLevel(ts, pos + 1, level - 1);
      if r.Parsed? {
        var e := Binary(left, ts[pos], r.expr);
        assert InLevel(e, level);
        ParseLevelLoopSound(ts, r.next, level, e);
      }
    }
  }

  lemma {:induction false} ParseUnarySound(ts: seq<Token>, pos: nat)
    requires pos < |ts|
    ensures var r := ParseUnary(ts, pos); r.Parsed? ==> InLevel(r.expr, 0)
    decreases |ts| - pos, 1
  {
    if MatchAny(ts, pos, [Bang, Minus]) {
      MatchAnySpec(ts, pos, [Bang, Minus]);
      ParseUnarySound(ts, pos + 1);
    } else {
      ParsePrimarySound(ts, pos);
    }
  }

  lemma {:induction false} ParsePrimarySound(ts: seq<Token>, pos: nat)
    requires pos < |ts|
    ensures var r := ParsePrimary(ts, pos); r.Parsed? ==> InLevel(r.expr, 0)
    decreases |ts| - pos, 0
  {
    if !MatchAny(ts, pos, [False]) && !MatchAny(ts, pos, [True]) && !MatchAny(ts, pos, [Nil])
       && !MatchAny(ts, pos, [Number, String]) && MatchAny(ts, pos, [LeftParen]) {
      ParseExpressionSound(ts, pos + 1);
    }
  }

  // ---------------------------------------------------------------------------
  // What `primary` does with any token

  /**
   * A `false`, `true` or `nil` token, whatever its lexeme and position, is the
   * literal of that value; a number or string token is a literal carrying the
   * token's own payload unchanged, so a number stays the text of its lexeme.
   * The token must not be the last one, since `check` is false there.
   */
  lemma PrimaryLiteral(ts: seq<Token>, p: nat)
    requires p + 1 < |ts| && ts[p].kind in [False, True, Nil, Number, String]
    ensures ts[p].kind == False ==> ParseUnary(ts, p) == Parsed(Literal(Bool(false)), p + 1)
    ensures ts[p].kind == True ==> ParseUnary(ts, p) == Parsed(Literal(Bool(true)), p + 1)
    ensures ts[p].kind == Nil ==> ParseUnary(ts, p) == Parsed(Literal(NilValue), p + 1)
    ensures ts[p].kind in [Number, String] ==> ParseUnary(ts, p) == Parsed(Literal(ts[p].literal), p + 1)
  {
    MatchAnySpec(ts, p, [Bang, Minus]);
    MatchAnySpec(ts, p, [False]);
    MatchAnySpec(ts, p, [True]);
    MatchAnySpec(ts, p, [Nil]);
    MatchAnySpec(ts, p, [Number, String]);
  }

  /**
   * A `(` that is not the last token: the expression after it is parsed; an error
   * there is the error of the whole; then a `)` closes a grouping and is taken as
   * `advance` takes it, and any other token is an error naming `)` as expected and
   * that token's kind and position.
   */
  lemma PrimaryGrouping(ts: seq<Token>, p: nat)
    requires p + 1 < |ts| && ts[p].kind == LeftParen
    ensures ParseExpression(ts, p + 1).Failed? ==> ParseUnary(ts, p) == ParseExpression(ts, p + 1)
    ensures ParseExpression(ts, p + 1).Parsed? ==>
              var (inner, close) := (ParseExpression(ts, p + 1).expr, ParseExpression(ts, p + 1).next);
              ParseUnary(ts, p) ==
                if ts[close].kind == RightParen then Parsed(Grouping(inner), AdvancePos(ts, close))
                else Failed(ExpectedToken(RightParen, ts[close].kind, ts[close].pos.line, ts[close].pos.start))
  {
    MatchAnySpec(ts, p, [Bang, Minus]);
    MatchAnySpec(ts, p, [False]);
    MatchAnySpec(ts, p, [True]);
    MatchAnySpec(ts, p, [Nil]);
    MatchAnySpec(ts, p, [Number, String]);
    MatchAnySpec(ts, p, [LeftParen]);
  }

  /**
   * A token that starts no expression, or any token in last place (where `check`
   * is false whatever the kind), is an expected-expression error naming its kind
   * and position; with no comment to skip in front, that is the error of the
   * whole expression.
   */
  lemma PrimaryExpectedExpression(ts: seq<Token>, p: nat)
    requires p < |ts|
    requires p + 1 == |ts| || ts[p].kind == EOF ||
             ts[p].kind !in [Bang, Minus, False, True, Nil, Number, String, LeftParen]
    ensures ParseUnary(ts, p) == Failed(ExpectedExpression(ts[p].kind, ts[p].pos.line, ts[p].pos.start))
    ensures ts[p].kind != Comment || p + 1 == |ts| ==>
              ParseExpression(ts, p) == Failed(ExpectedExpression(ts[p].kind, ts[p].pos.line, ts[p].pos.start))
  {
    MatchAnySpec(ts, p, [Bang, Minus]);
    MatchAnySpec(ts, p, [False]);
    MatchAnySpec(ts, p, [True]);
    MatchAnySpec(ts, p, [Nil]);
    MatchAnySpec(ts, p, [Number, String]);
    MatchAnySpec(ts, p, [LeftParen]);
    if ts[p].kind != Comment || p + 1 == |ts| {
      assert SkipComments(ts, p) == p;
      LeftmostFailure(ts, p, 4);
    }
  }

  // ---------------------------------------------------------------------------
  // Completeness: the tokens of a grammatical expression parse back to it

  /**
   * The token written for a literal value, as the scanner makes it at the start of
   * a line: a keyword token without a payload, or a number token whose payload is
   * its lexeme. String-kind tokens, and literal tokens with any lexeme and
   * position, are covered by `PrimaryLiteral`.
   */
  function LeafToken(v: Value): (t: Token)
    ensures t.lexeme == ValueString(v)
    ensures v.Str? ==> t.kind == Number && t.literal == v
    ensures !v.Str? ==> t.kind in [False, True, Nil] && t.literal == NilValue
  {
    match v
    case NilValue => Token(Nil, "nil", NilValue, Pos(0, 0, 3))
    case Bool(b) => if b then Token(True, "true", NilValue, Pos(0, 0, 4)) else Token(False, "false", NilValue, Pos(0, 0, 5))
    case Str(s) => Token(Number, s, v, Pos(0, 0, |s|))
  }

  /** A parenthesis token. */
  function ParenToken(kind: TokenType): Token {
    Token(kind, if kind == LeftParen then "(" else ")", NilValue, Pos(0, 0, 0))
  }

  /** The tokens an expression is written with, in order, with parentheses for groupings. */
  function Flatten(e: Expr): (ts: seq<Token>)
    ensures |ts| > 0
  {
    match e
    case Unary(op, right) => [op] + Flatten(right)
    case Binary(left, op, right) => Flatten(left) + [op] + Flatten(right)
    case Literal(v) => [LeafToken(v)]
    case Grouping(inner) => [ParenToken(LeftParen)] + Flatten(inner) + [ParenToken(RightParen)]
  }

  /** A kind that ends an expression of level `level`: no operator of that level or below. */
  predicate Stops(kind: TokenType, level: nat)
    requires level <= 4
  {
    forall k | 1 <= k <= level :: kind !in Ops(k)
  }

  /** A grammatical expression never starts with a comment token. */
  lemma {:induction false} FlattenStart(e: Expr, level: nat)
    requires level <= 4 && InLevel(e, level)
    ensures Flatten(e)[0].kind != Comment
    decreases e, level
  {
    if level > 0 {
      if e.Binary? && e.op.kind in Ops(level) && InLevel(e.left, level) && InLevel(e.right, level - 1) {
        FlattenStart(e.left, level);
      } else {
        FlattenStart(e, level - 1);
      }
    }
  }

  /** Where the parts of a binary node's tokens lie. */
  lemma SliceBinary(ts: seq<Token>, p: nat, e: Expr)
    requires e.Binary? && p + |Flatten(e)| <= |ts| && ts[p..p + |Flatten(e)|] == Flatten(e)
    ensures var m := p + |Flatten(e.left)|;
            && m + 1 + |Flatten(e.right)| == p + |Flatten(e)|
            && ts[p..m] == Flatten(e.left) && ts[m] == e.op
            && ts[m + 1..p + |Flatten(e)|] == Flatten(e.right)
  {
    var m, end := p + |Flatten(e.left)|, p + |Flatten(e)|;
    assert Flatten(e) == Flatten(e.left) + [e.op] + Flatten(e.right);
    assert ts[p..end][..|Flatten(e.left)|] == ts[p..m];
    assert ts[p..end][|Flatten(e.left)|] == ts[m];
    assert ts[p..end][|Flatten(e.left)| + 1..] == ts[m + 1..end];
  }

  /** Where the parts of a grouping's tokens lie. */
  lemma SliceGrouping(ts: seq<Token>, p: nat, e: Expr)
    requires e.Grouping? && p + |Flatten(e)| <= |ts| && ts[p..p + |Flatten(e)|] == Flatten(e)
    ensures var close := p + |Flatten(e)| - 1;
            && close == p + 1 + |Flatten(e.inner)|
            && ts[p] == ParenToken(LeftParen)
            && ts[p + 1..close] == Flatten(e.inner) && ts[close] == ParenToken(RightParen)
  {
    var end := p + |Flatten(e)|;
    var close := end - 1;
    var f, g := Flatten(e), Flatten(e.inner);
    assert f == [ParenToken(LeftParen)] + g + [ParenToken(RightParen)];
    assert ts[p] == ts[p..end][0] == f[0];
    assert ts[close] == ts[p..end][|f| - 1] == f[|f| - 1];
    forall i | 0 <= i < |g| ensures ts[p + 1..close][i] == g[i] {
      assert ts[p + 1 + i] == ts[p..end][1 + i] == f[1 + i];
    }
  }

  /** Where the operand of a prefix operator's tokens lies. */
  lemma SliceUnary(ts: seq<Token>, p: nat, e: Expr)
    requires e.Unary? && p + |Flatten(e)| <= |ts| && ts[p..p + |Flatten(e)|] == Flatten(e)
    ensures ts[p] == e.op && ts[p + 1..p + |Flatten(e)|] == Flatten(e.right)
  {
    var end := p + |Flatten(e)|;
    assert ts[p..end][0] == ts[p];
    assert ts[p..end][1..] == ts[p + 1..end];
  }

  /** A literal's token, not the last one, parses as that literal. */
  lemma LiteralRoundTrip(v: Value, ts: seq<Token>, p: nat)
    requires p + 1 < |ts| && ts[p] == LeafToken(v)
    ensures ParseUnary(ts, p) == Parsed(Literal(v), p + 1)
  {
    PrimaryLiteral(ts, p);
  }

  /** `(`, an expression, then `)` that is not the last token: a grouping, ending after the `)`. */
  lemma GroupingRoundTrip(ts: seq<Token>, p: nat, inner: Expr, close: nat)
    requires close + 1 < |ts| && p < close
    requires ts[p] == ParenToken(LeftParen) && ts[close] == ParenToken(RightParen)
    requires ParseExpression(ts, p + 1) == Parsed(inner, close)
    ensures ParseUnary(ts, p) == Parsed(Grouping(inner), close + 1)
  {
    MatchAnySpec(ts, p, [Bang, Minus]);
    MatchAnySpec(ts, p, [False]);
    MatchAnySpec(ts, p, [True]);
    MatchAnySpec(ts, p, [Nil]);
    MatchAnySpec(ts, p, [Number, String]);
    MatchAnySpec(ts, p, [LeftParen]);
  }

  /** One round of a binary level's loop. */
  lemma LoopStep(ts: seq<Token>, m: nat, level: nat, left: Expr, right: Expr, end: nat)
    requires m < |ts| && 1 <= level <= 4 && MatchAny(ts, m, Ops(level))
    requires ParseLevel(ts, m + 1, level - 1) == Parsed(right, end)
    ensures ParseLevelLoop(ts, m, level, left) == ParseLevelLoop(ts, end, level, Binary(left, ts[m], right))
  {
  }

  /** An operator of a binary level is no operator of any tighter level. */
  lemma OperatorStops(t: TokenType, level: nat)
    requires 1 <= level <= 4 && t in Ops(level)
    ensures Stops(t, level - 1)
  {
    forall k | 1 <= k <= level - 1 ensures t !in Ops(k) {
      OpsDisjoint(k, level, t);
    }
  }

  /**
   * With the tokens of an expression of a binary level at `p`, and a token after
   * them that is no operator of a lower level, parsing the level reaches its loop
   * with that whole expression as the left-hand side.
   */
  lemma {:induction false} LevelPrefix(e: Expr, level: nat, ts: seq<Token>, p: nat)
    requires 1 <= level <= 4 && InLevel(e, level)
    requires p + |Flatten(e)| < |ts| && ts[p..p + |Flatten(e)|] == Flatten(e)
    requires Stops(ts[p + |Flatten(e)|].kind, level - 1)
    ensures ParseLevel(ts, p, level) == ParseLevelLoop(ts, p + |Flatten(e)|, level, e)
    decreases e, level, 3
  {
    if e.Binary? && e.op.kind in Ops(level) && InLevel(e.left, level) && InLevel(e.right, level - 1) {
      SliceBinary(ts, p, e);
      LevelPrefixBinary(e, level, ts, p, p + |Flatten(e.left)|);
    } else {
      assert InLevel(e, level - 1);
      RoundTrip(e, level - 1, ts, p);
      LevelEntersLoop(ts, p, level, e, p + |Flatten(e)|);
    }
  }

  /** A binary level parses the next level down and enters its loop with the result. */
  lemma LevelEntersLoop(ts: seq<Token>, p: nat, level: nat, left: Expr, next: nat)
    requires p < |ts| && 1 <= level <= 4 && ParseLevel(ts, p, level - 1) == Parsed(left, next)
    ensures ParseLevel(ts, p, level) == ParseLevelLoop(ts, next, level, left)
  {
  }

  /** `LevelPrefix` for a binary node of the level itself, its operator at `m`: its left operand reaches the loop, which takes the operator and the right operand. */
  lemma {:induction false} LevelPrefixBinary(e: Expr, level: nat, ts: seq<Token>, p: nat, m: nat)
    requires 1 <= level <= 4 && e.Binary? && e.op.kind in Ops(level)
    requires InLevel(e.left, level) && InLevel(e.right, level - 1)
    requires m == p + |Flatten(e.left)| && m + 1 + |Flatten(e.right)| < |ts|
    requires ts[p..m] == Flatten(e.left) && ts[m] == e.op
    requires ts[m + 1..m + 1 + |Flatten(e.right)|] == Flatten(e.right)
    requires Stops(ts[m + 1 + |Flatten(e.right)|].kind, level - 1)
    ensures ParseLevel(ts, p, level) == ParseLevelLoop(ts, m + 1 + |Flatten(e.right)|, level, e)
    decreases e, level, 1
  {
    OperatorStops(ts[m].kind, level);
    LevelPrefix(e.left, level, ts, p);
    LoopTakesRight(e, level, ts, m);
  }

  /** The loop of a binary level, on the operator of `e` at `m`, takes it and the right operand and goes on after them. */
  lemma {:induction false} LoopTakesRight(e: Expr, level: nat, ts: seq<Token>, m: nat)
    requires 1 <= level <= 4 && e.Binary? && e.op.kind in Ops(level) && InLevel(e.right, level - 1)
    requires m < |ts| && ts[m] == e.op
    requires m + 1 + |Flatten(e.right)| < |ts| && ts[m + 1..m + 1 + |Flatten(e.right)|] == Flatten(e.right)
    requires Stops(ts[m + 1 + |Flatten(e.right)|].kind, level - 1)
    ensures ParseLevelLoop(ts, m, level, e.left) == ParseLevelLoop(ts, m + 1 + |Flatten(e.right)|, level, e)
    decreases e, level, 0
  {
    RoundTrip(e.right, level - 1, ts, m + 1);
    MatchAnySpec(ts, m, Ops(level));
    LoopStep(ts, m, level, e.left, e.right, m + 1 + |Flatten(e.right)|);
  }

  /**
   * The tokens of an expression of level `level`, followed by a token that is no
   * operator of that level or below, parse at that level back to the expression,
   * with the cursor on the following token.
   */
  lemma {:induction false} RoundTrip(e: Expr, level: nat, ts: seq<Token>, p: nat)
    requires level <= 4 && InLevel(e, level)
    requires p + |Flatten(e)| < |ts| && ts[p..p + |Flatten(e)|] == Flatten(e)
    requires Stops(ts[p + |Flatten(e)|].kind, level)
    ensures ParseLevel(ts, p, level) == Parsed(e, p + |Flatten(e)|)
    decreases e, level, 4
  {
    if level > 0 {
      LevelPrefix(e, level, ts, p);
      MatchAnySpec(ts, p + |Flatten(e)|, Ops(level));
    } else if e.Grouping? {
      GroupingCase(e, ts, p);
    } else {
      UnaryCase(e, ts, p);
    }
  }

  /** `RoundTrip` at the level of `unary`, for a prefix operator or a literal. */
  lemma {:induction false} UnaryCase(e: Expr, ts: seq<Token>, p: nat)
    requires InLevel(e, 0) && !e.Grouping?
    requires p + |Flatten(e)| < |ts| && ts[p..p + |Flatten(e)|] == Flatten(e)
    ensures ParseUnary(ts, p) == Parsed(e, p + |Flatten(e)|)
    decreases e, 0, 3
  {
    match e
    case Unary(op, right) =>
      SliceUnary(ts, p, e);
      RoundTrip(right, 0, ts, p + 1);
      MatchAnySpec(ts, p, [Bang, Minus]);
    case Literal(v) =>
      assert ts[p..p + 1][0] == ts[p];
      LiteralRoundTrip(v, ts, p);
  }

  /** `RoundTrip` at the level of `unary`, for a grouping. */
  lemma {:induction false} GroupingCase(e: Expr, ts: seq<Token>, p: nat)
    requires InLevel(e, 0) && e.Grouping?
    requires p + |Flatten(e)| < |ts| && ts[p..p + |Flatten(e)|] == Flatten(e)
    ensures ParseUnary(ts, p) == Parsed(e, p + |Flatten(e)|)
    decreases e, 0, 3
  {
    SliceGrouping(ts, p, e);
    GroupingParts(e, ts, p, p + |Flatten(e)| - 1);
  }

  /** `GroupingCase` on the parts: `(` at `p`, the inner expression's tokens, `)` at `close`. */
  lemma {:induction false} GroupingParts(e: Expr, ts: seq<Token>, p: nat, close: nat)
    requires e.Grouping? && InLevel(e.inner, 4)
    requires close == p + 1 + |Flatten(e.inner)| && close + 1 < |ts|
    requires ts[p] == ParenToken(LeftParen) && ts[close] == ParenToken(RightParen)
    requires ts[p + 1..close] == Flatten(e.inner)
    ensures ParseUnary(ts, p) == Parsed(e, close + 1)
    decreases e, 0, 1
  {
    FlattenStart(e.inner, 4);
    assert ts[p + 1] == Flatten(e.inner)[0] by {
      assert ts[p + 1..close][0] == ts[p + 1];
    }
    CloseParenStops();
    RoundTrip(e.inner, 4, ts, p + 1);
    ExpressionWithoutComment(ts, p + 1);
    GroupingRoundTrip(ts, p, e.inner, close);
  }

  /** A closing parenthesis ends an expression at every level. */
  lemma CloseParenStops()
    ensures Stops(ParenToken(RightParen).kind, 4)
  {
  }

  /**
   * Parsing inverts writing an expression out as tokens: for every expression of
   * the grammar, its tokens followed by any token that is not a binary operator
   * (an EOF token, say) parse back to that expression, ending on that token.
   */
  lemma ParseInvertsFlatten(e: Expr, rest: seq<Token>)
    requires InLevel(e, 4)
    requires rest != [] && Stops(rest[0].kind, 4)
    ensures ParseTokens(Flatten(e) + rest) == Parsed(e, |Flatten(e)|)
  {
    var ts := Flatten(e) + rest;
    assert ts[0..|Flatten(e)|] == Flatten(e);
    assert ts[|Flatten(e)|] == rest[0];
    FlattenStart(e, 4);
    RoundTrip(e, 4, ts, 0);
  }

  /** An error in the leftmost operand ends the parse at every level with that error. */
  lemma {:induction false} LeftmostFailure(ts: seq<Token>, pos: nat, level: nat)
    requires pos < |ts| && level <= 4 && ParseUnary(ts, pos).Failed?
    ensures ParseLevel(ts, pos, level) == ParseUnary(ts, pos)
  {
    if level > 0 {
      LeftmostFailure(ts, pos, level - 1);
    }
  }

  // ---------------------------------------------------------------------------
  // Examples

  /** A token of kind `kind` at column `col` of the first line. */
  function Tok(kind: TokenType, lexeme: seq<Byte>, col: int): Token {
    Token(kind, lexeme, NilValue, Pos(0, col, col + |lexeme|))
  }

  /** The numbers 1, 2 and 3: number tokens whose payload is their lexeme, as the scanner makes them. */
  const One: Token := LeafToken(Str("1"))
  const Two: Token := LeafToken(Str("2"))
  const Three: Token := LeafToken(Str("3"))
  const EofTok: Token := Tok(EOF, "", 0)

  /** `1 - 2 - 3` groups to the left: the parser builds `(1 - 2) - 3`, not `1 - (2 - 3)`. */
  lemma LeftAssociativeExample()
    ensures var minus := Tok(Minus, "-", 0);
            var ts := [One, minus, Two, minus, Three, EofTok];
            && ParseTokens(ts) ==
                 Parsed(Binary(Binary(Literal(Str("1")), minus, Literal(Str("2"))), minus, Literal(Str("3"))), 5)
            && ParseTokens(ts).expr !=
                 Binary(Literal(Str("1")), minus, Binary(Literal(Str("2")), minus, Literal(Str("3"))))
  {
    var minus := Tok(Minus, "-", 0);
    var e := Binary(Binary(Literal(Str("1")), minus, Literal(Str("2"))), minus, Literal(Str("3")));
    assert InLevel(e.left, 2);
    assert InLevel(e, 4);
    assert Flatten(e) == [One, minus, Two, minus, Three];
    assert [One, minus, Two, minus, Three, EofTok] == Flatten(e) + [EofTok];
    ParseInvertsFlatten(e, [EofTok]);
  }

  /** `1 + 2 * 3`: the product binds tighter, so it is the right operand of the sum. */
  lemma PrecedenceExample()
    ensures var plus, star := Tok(Plus, "+", 0), Tok(Star, "*", 0);
            ParseTokens([One, plus, Two, star, Three, EofTok]) ==
              Parsed(Binary(Literal(Str("1")), plus, Binary(Literal(Str("2")), star, Literal(Str("3")))), 5)
  {
    var plus, star := Tok(Plus, "+", 0), Tok(Star, "*", 0);
    var e := Binary(Literal(Str("1")), plus, Binary(Literal(Str("2")), star, Literal(Str("3"))));
    assert InLevel(e.right, 1);
    assert InLevel(e, 4);
    assert Flatten(e) == [One, plus, Two, star, Three];
    assert [One, plus, Two, star, Three, EofTok] == Flatten(e) + [EofTok];
    ParseInvertsFlatten(e, [EofTok]);
  }

  /** Prefix operators nest to the right: `- - 1` is `-(-1)`. */
  lemma UnaryNestingExample()
    ensures var minus := Tok(Minus, "-", 0);
            ParseTokens([minus, minus, One, EofTok]) ==
              Parsed(Expr.Unary(minus, Expr.Unary(minus, Literal(Str("1")))), 3)
  {
    var minus := Tok(Minus, "-", 0);
    var e := Expr.Unary(minus, Expr.Unary(minus, Literal(Str("1"))));
    assert InLevel(e, 0);
    InLevelMonotone(e, 0, 4);
    assert Flatten(e) == [minus, minus, One];
    assert [minus, minus, One, EofTok] == Flatten(e) + [EofTok];
    ParseInvertsFlatten(e, [EofTok]);
  }

  /** `=` is taken as a comparison operator: `1 = 2` is a comparison. */
  lemma EqualIsComparisonExample()
    ensures var eq := Tok(Equal, "=", 0);
            ParseTokens([One, eq, Two, EofTok]) ==
              Parsed(Binary(Literal(Str("1")), eq, Literal(Str("2"))), 3)
  {
    var eq := Tok(Equal, "=", 0);
    var e := Binary(Literal(Str("1")), eq, Literal(Str("2")));
    assert InLevel(e, 3);
    InLevelMonotone(e, 3, 4);
    assert Flatten(e) == [One, eq, Two];
    assert [One, eq, Two, EofTok] == Flatten(e) + [EofTok];
    ParseInvertsFlatten(e, [EofTok]);
  }

  /**
   * `>=` is no operator of any level, so `1 >= 2` parses as just `1`, with the
   * cursor left on the `>=`.
   */
  lemma GreaterEqualStopsExample()
    ensures forall k | 1 <= k <= 4 :: GreaterEqual !in Ops(k)
    ensures ParseTokens([One, Tok(GreaterEqual, ">=", 0), Two, EofTok]) == Parsed(Literal(Str("1")), 1)
  {
    var ts := [One, Tok(GreaterEqual, ">=", 0), Two, EofTok];
    var e := Literal(Str("1"));
    InLevelMonotone(e, 0, 4);
    assert ts[0..1] == Flatten(e);
    FlattenStart(e, 4);
    RoundTrip(e, 4, ts, 0);
  }

  /** A `(` without its `)` is an error naming the expected and the actual kind and position. */
  lemma MissingRightParenExample()
    ensures ParseTokens([Tok(LeftParen, "(", 0), One, Tok(EOF, "", 7)]) ==
              Failed(ExpectedToken(RightParen, EOF, 0, 7))
  {
    var ts := [Tok(LeftParen, "(", 0), One, Tok(EOF, "", 7)];
    var e := Literal(Str("1"));
    InLevelMonotone(e, 0, 4);
    assert ts[1..2] == Flatten(e);
    FlattenStart(e, 4);
    RoundTrip(e, 4, ts, 1);
    PrimaryGrouping(ts, 0);
    LeftmostFailure(ts, 0, 4);
  }

  /**
   * A token that starts no expression is an error. So is any token in last place:
   * `check` is false there whatever its kind, so a sequence without a final EOF
   * cannot end in a literal.
   */
  lemma ExpectedExpressionExamples()
    ensures ParseTokens([Tok(Plus, "+", 3), EofTok]) == Failed(ExpectedExpression(Plus, 0, 3))
    ensures ParseTokens([One]) == Failed(ExpectedExpression(Number, 0, 0))
  {
    PrimaryExpectedExpression([Tok(Plus, "+", 3), EofTok], 0);
    PrimaryExpectedExpression([One], 0);
  }
}
