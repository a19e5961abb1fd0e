/**
 * The recursive-descent expression parser of glox (glox/parser.go).
 *
 * The parser walks a token sequence with a cursor. Each precedence level has its
 * own routine: `Expression` skips comments and calls `Equality`, which calls
 * `Comparison`, then `Term`, `Factor`, `unary` and `primary`; each binary level
 * loops while the next token is one of its operators, building a left-nested tree.
 *
 * The pure functions below (`ParseExpression`, `ParseLevel`, `ParseLevelLoop`,
 * `ParseUnary`, `ParsePrimary`) say what each routine returns when started at a
 * given cursor position; the class `Parser` holds the cursor and each of its
 * methods is proved to return what the matching function says. The four binary
 * levels differ only in their operator lists, so one function and one method
 * (`BinaryLevel`) serve all four, indexed by the level number:
 * 4 is `Equality`, 3 `Comparison`, 2 `Term` and 1 `Factor`.
 *
 * Where the source panics (a missing `)`, a token that starts no expression), the
 * result here is `Failed` with the error the panic carries.
 */
module Parsing {
  import opened Tokens
  import opened Ast

  datatype ParseError =
    | ExpectedToken(want: TokenType, got: TokenType, line: int, col: int)  // from `consume`
    | ExpectedExpression(got: TokenType, line: int, col: int)              // from `primary`
    | NoTokens                                                             // `peek` on an empty sequence

  /** An expression and the cursor after it, or the error that stopped the parse. */
  datatype ParseResult = Parsed(expr: Expr, next: nat) | Failed(err: ParseError)

  // ---------------------------------------------------------------------------
  // The cursor helpers, on a cursor position

  /** `isAtEnd`: the current token is EOF, or it is the last token. */
  predicate AtEnd(ts: seq<Token>, pos: nat)
    requires pos < |ts|
    ensures !AtEnd(ts, pos) ==> pos + 1 < |ts| && ts[pos].kind != EOF
  {
    ts[pos].kind == EOF || pos >= |ts| - 1
  }

  /** The cursor after `advance`: one further, unless at the end. */
  function AdvancePos(ts: seq<Token>, pos: nat): (p: nat)
    requires pos < |ts|
    ensures p < |ts|
    ensures p == (if AtEnd(ts, pos) then pos else pos + 1)
  {
    if AtEnd(ts, pos) then pos else pos + 1
  }

  /** `check`: false at the end, otherwise whether the current token has kind `t`. */
  predicate CheckKind(ts: seq<Token>, pos: nat, t: TokenType)
    requires pos < |ts|
    ensures CheckKind(ts, pos, t) ==> pos + 1 < |ts| && ts[pos].kind == t != EOF
  {
    !AtEnd(ts, pos) && ts[pos].kind == t
  }

  /** `match` succeeds when `check` holds for one of `types`. */
  predicate MatchAny(ts: seq<Token>, pos: nat, types: seq<TokenType>)
    requires pos < |ts|
    ensures MatchAny(ts, pos, types) ==> pos + 1 < |ts| && ts[pos].kind in types && ts[pos].kind != EOF
  {
    exists i | 0 <= i < |types| :: CheckKind(ts, pos, types[i])
  }

  /** The operators of each binary level, in the order the source lists them. */
  function Ops(level: nat): (ops: seq<TokenType>)
    requires 1 <= level <= 4
    ensures GreaterEqual !in ops && EOF !in ops && Comment !in ops && RightParen !in ops
  {
    match level
    case 4 => [BangEqual, EqualEqual]
    case 3 => [Greater, Equal, Less, LessEqual]
    case 2 => [Minus, Plus]
    case 1 => [Slash, Star]
  }

  /** The cursor after the loop at the top of `Expression` that skips comment tokens. */
  function SkipComments(ts: seq<Token>, pos: nat): (p: nat)
    requires pos < |ts|
    ensures pos <= p < |ts| && !CheckKind(ts, p, Comment)
    ensures forall k | pos <= k < p :: ts[k].kind == Comment
    decreases |ts| - pos
  {
    if CheckKind(ts, pos, Comment) then SkipComments(ts, pos + 1) else pos
  }

  // ---------------------------------------------------------------------------
  // What each routine returns

  /** `Expression`: skip comments, then parse an equality. */
  function ParseExpression(ts: seq<Token>, pos: nat): (r: ParseResult)
    requires pos < |ts|
    ensures r.Parsed? ==> pos < r.next < |ts|
    decreases |ts| - pos, 7
  {
    ParseLevel(ts, SkipComments(ts, pos), 4)
  }

  /** A binary level: parse the next level down, then loop over this level's operators. */
  function ParseLevel(ts: seq<Token>, pos: nat, level: nat): (r: ParseResult)
    requires pos < |ts| && level <= 4
    ensures r.Parsed? ==> pos < r.next < |ts|
    decreases |ts| - pos, level + 2
  {
    if level == 0 then
      ParseUnary(ts, pos)
    else
      match ParseLevel(ts, pos, level - 1)
      case Failed(e) => Failed(e)
      case Parsed(left, next) => ParseLevelLoop(ts, next, level, left)
  }

  /**
   * The loop of a binary level with `left` parsed so far: while the current token
   * is one of the level's operators, take it and the next operand and make them the
   * right-hand side of a new binary node whose left-hand side is everything so far.
   */
  function ParseLevelLoop(ts: seq<Token>, pos: nat, level: nat, left: Expr): (r: ParseResult)
    requires pos < |ts| && 1 <= level <= 4
    ensures r.Parsed? ==> pos <= r.next < |ts|
    decreases |ts| - pos, 0
  {
    if MatchAny(ts, pos, Ops(level)) then
      match ParseLevel(ts, pos + 1, level - 1)
      case Failed(e) => Failed(e)
      case Parsed(right, next) => ParseLevelLoop(ts, next, level, Binary(left, ts[pos], right))
    else
      Parsed(left, pos)
  }

  /** `unary`: a prefix `!` or `-` applied to another unary, or a primary. */
  function ParseUnary(ts: seq<Token>, pos: nat): (r: ParseResult)
    requires pos < |ts|
    ensures r.Parsed? ==> pos < r.next < |ts|
    decreases |ts| - pos, 1
  {
    if MatchAny(ts, pos, [Bang, Minus]) then
      match ParseUnary(ts, pos + 1)
      case Failed(e) => Failed(e)
      case Parsed(right, next) => Parsed(Expr.Unary(ts[pos], right), next)
    else
      ParsePrimary(ts, pos)
  }

  /** `primary`: a literal, a parenthesised expression, or an error. */
  function ParsePrimary(ts: seq<Token>, pos: nat): (r: ParseResult)
    requires pos < |ts|
    ensures r.Parsed? ==> pos < r.next < |ts|
    decreases |ts| - pos, 0
  {
    if MatchAny(ts, pos, [False]) then
      Parsed(Literal(Bool(false)), pos + 1)
    else if MatchAny(ts, pos, [True]) then
      Parsed(Literal(Bool(true)), pos + 1)
    else if MatchAny(ts, pos, [Nil]) then
      Parsed(Literal(NilValue), pos + 1)
    else if MatchAny(ts, pos, [Number, String]) then
      Parsed(Literal(ts[pos].literal), pos + 1)
    else if MatchAny(ts, pos, [LeftParen]) then
      match ParseExpression(ts, pos + 1)
      case Failed(e) => Failed(e)
      case Parsed(inner, next) =>
        if ts[next].kind == RightParen then
          Parsed(Grouping(inner), AdvancePos(ts, next))
        else
          Failed(ExpectedToken(RightParen, ts[next].kind, ts[next].pos.line, ts[next].pos.start))
    else
      Failed(ExpectedExpression(ts[pos].kind, ts[pos].pos.line, ts[pos].pos.start))
  }

  /** `Parse` on a whole token sequence, from the first token. */
  function ParseTokens(ts: seq<Token>): (r: ParseResult)
    ensures ts == [] ==> r == Failed(NoTokens)
    ensures r.Parsed? ==> 0 < r.next < |ts|
  {
    if ts == [] then Failed(NoTokens) else ParseExpression(ts, 0)
  }

  // ---------------------------------------------------------------------------
  // The stateful parser

  /** `consume` reports success, or the error naming the expected and the actual kind. */
  datatype ConsumeResult = Consumed | Mismatch(err: ParseError)

  class Parser {
    const tokens: seq<Token>
    var current: int

    /** The cursor is on a token; with no tokens at all it stays at 0. */
    predicate Valid()
      reads this
    {
      0 <= current && (current < |tokens| || current == 0)
    }

    /** NewParser */
    constructor (tokens: seq<Token>)
      ensures this.tokens == tokens && current == 0 && Valid()
    {
      this.tokens := tokens;
      current := 0;
    }

    method IsAtEnd() returns (b: bool)
      requires Valid() && |tokens| > 0
      ensures b == AtEnd(tokens, current)
    {
      var t := Peek();
      b := t.kind == EOF || current >= |tokens| - 1;
    }

    method Peek() returns (t: Token)
      requires Valid() && |tokens| > 0
      ensures t == tokens[current]
    {
      t := tokens[current];
    }

    method Advance() returns (t: Token)
      requires Valid() && |tokens| > 0
      modifies this
      ensures Valid() && t == tokens[old(current)]
      ensures current == AdvancePos(tokens, old(current))
    {
      t := tokens[current];
      var atEnd := IsAtEnd();
      if !atEnd {
        current := current + 1;
      }
    }

    method Previous() returns (t: Token)
      requires Valid() && 0 < current
      ensures t == tokens[current - 1]
    {
      t := tokens[current - 1];
    }

    method Check(t: TokenType) returns (b: bool)
      requires Valid() && |tokens| > 0
      ensures b == CheckKind(tokens, current, t)
    {
      var atEnd := IsAtEnd();
      if atEnd {
        return false;
      }
      var next := Peek();
      b := next.kind == t;
    }

    /** `match`: tries the kinds in order and takes the current token on the first that checks. */
    method Match(types: seq<TokenType>) returns (b: bool)
      requires Valid() && |tokens| > 0
      modifies this
      ensures Valid() && b == MatchAny(tokens, old(current), types)
      ensures current == if b then old(current) + 1 else old(current)
    {
      for i := 0 to |types|
        invariant current == old(current)
        invariant forall j | 0 <= j < i :: !CheckKind(tokens, current, types[j])
      {
        var hit := Check(types[i]);
        if hit {
          var _ := Advance();
          return true;
        }
      }
      return false;
    }

    /** `consume`: take the current token if it has kind `t`, or report what was there instead. */
    method Consume(t: TokenType) returns (r: ConsumeResult)
      requires Valid() && |tokens| > 0
      modifies this
      ensures Valid()
      ensures var next := tokens[old(current)];
              if next.kind == t then
                r == Consumed && current == AdvancePos(tokens, old(current))
              else
                r == Mismatch(ExpectedToken(t, next.kind, next.pos.line, next.pos.start)) &&
                current == old(current)
    {
      var next := Peek();
      if next.kind == t {
        var _ := Advance();
        return Consumed;
      }
      return Mismatch(ExpectedToken(t, next.kind, next.pos.line, next.pos.start));
    }

    method Expression() returns (r: ParseResult)
      requires Valid() && |tokens| > 0
      modifies this
      ensures Valid() && r == ParseExpression(tokens, old(current))
      ensures r.Parsed? ==> current == r.next
      decreases |tokens| - current, 5, 3
    {
      // Pass over comment tokens until something else is current
      while true
        invariant Valid() && old(current) <= current
        invariant SkipComments(tokens, current) == SkipComments(tokens, old(current))
        decreases |tokens| - current
      {
        var comment := Check(Comment);
        if !comment {
          break;
        }
        var _ := Advance();
      }
      r := Equality();
    }

    method Equality() returns (r: ParseResult)
      requires Valid() && |tokens| > 0
      modifies this
      ensures Valid() && r == ParseLevel(tokens, old(current), 4)
      ensures r.Parsed? ==> current == r.next
      decreases |tokens| - current, 4, 2
    {
      r := BinaryLevel(4);
    }

    method Comparison() returns (r: ParseResult)
      requires Valid() && |tokens| > 0
      modifies this
      ensures Valid() && r == ParseLevel(tokens, old(current), 3)
      ensures r.Parsed? ==> current == r.next
      decreases |tokens| - current, 3, 2
    {
      r := BinaryLevel(3);
    }

    method Term() returns (r: ParseResult)
      requires Valid() && |tokens| > 0
      modifies this
      ensures Valid() && r == ParseLevel(tokens, old(current), 2)
      ensures r.Parsed? ==> current == r.next
      decreases |tokens| - current, 2, 2
    {
      r := BinaryLevel(2);
    }

    method Factor() returns (r: ParseResult)
      requires Valid() && |tokens| > 0
      modifies this
      ensures Valid() && r == ParseLevel(tokens, old(current), 1)
      ensures r.Parsed? ==> current == r.next
      decreases |tokens| - current, 1, 2
    {
      r := BinaryLevel(1);
    }

    /** The level below `level`: `Comparison` below `Equality`, down to `unary` below `Factor`. */
    method Operand(level: nat) returns (r: ParseResult)
      requires Valid() && |tokens| > 0 && 1 <= level <= 4
      modifies this
      ensures Valid() && r == ParseLevel(tokens, old(current), level - 1)
      ensures r.Parsed? ==> current == r.next
      decreases |tokens| - current, level, 0
    {
      match level
      case 4 => r := Comparison();
      case 3 => r := Term();
      case 2 => r := Factor();
      case 1 => r := Unary();
    }

    /** The body shared by `Equality`, `Comparison`, `Term` and `Factor`. */
    method BinaryLevel(level: nat) returns (r: ParseResult)
      requires Valid() && |tokens| > 0 && 1 <= level <= 4
      modifies this
      ensures Valid() && r == ParseLevel(tokens, old(current), level)
      ensures r.Parsed? ==> current == r.next
      decreases |tokens| - current, level, 1
    {
      var expr := Operand(level);
      if expr.Failed? {
        return expr;
      }
      var left := expr.expr;
      while true
        invariant Valid() && old(current) < current
        invariant ParseLevelLoop(tokens, current, level, left) == ParseLevel(tokens, old(current), level)
        decreases |tokens| - current
      {
        var more := Match(Ops(level));
        if !more {
          break;
        }
        var operator := Previous();
        var right := Operand(level);
        if right.Failed? {
          return Failed(right.err);
        }
        left := Binary(left, operator, right.expr);
      }
      r := Parsed(left, current);
    }

    method Unary() returns (r: ParseResult)
      requires Valid() && |tokens| > 0
      modifies this
      ensures Valid() && r == ParseUnary(tokens, old(current))
      ensures r.Parsed? ==> current == r.next
      decreases |tokens| - current, 0, 2
    {
      var prefix := Match([Bang, Minus]);
      if prefix {
        var operator := Previous();
        var right := Unary();
        if right.Failed? {
          return right;
        }
        return Parsed(Expr.Unary(operator, right.expr), right.next);
      }
      r := Primary();
    }

    method Primary() returns (r: ParseResult)
      requires Valid() && |tokens| > 0
      modifies this
      ensures Valid() && r == ParsePrimary(tokens, old(current))
      ensures r.Parsed? ==> current == r.next
      decreases |tokens| - current, 0, 1
    {
      var hit := Match([False]);
      if hit {
        return Parsed(Literal(Bool(false)), current);
      }
      hit := Match([True]);
      if hit {
        return Parsed(Literal(Bool(true)), current);
      }
      hit := Match([Nil]);
      if hit {
        return Parsed(Literal(NilValue), current);
      }
      hit := Match([Number, String]);
      if hit {
        var t := Previous();
        return Parsed(Literal(t.literal), current);
      }
      hit := Match([LeftParen]);
      if hit {
        var expr := Expression();
        if expr.Failed? {
          return expr;
        }
        var closed := Consume(RightParen);
        if closed.Mismatch? {
          return Failed(closed.err);
        }
        return Parsed(Grouping(expr.expr), current);
      }
      var t := Peek();
      r := Failed(ExpectedExpression(t.kind, t.pos.line, t.pos.start));
    }

    /** `Parse`: an expression from the current token on. */
    method Parse() returns (r: ParseResult)
      requires Valid()
      modifies this
      ensures old(current) == 0 ==> r == ParseTokens(tokens)
      ensures |tokens| > 0 ==> r == ParseExpression(tokens, old(current))
    {
      if |tokens| == 0 {
        return Failed(NoTokens);
      }
      r := Expression();
    }
  }
}
