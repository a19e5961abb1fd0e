/**
 * The shared token vocabulary of the glox front end (glox/token.go): the kinds of
 * token, the reserved-word table, the kind-name table, the character-class
 * predicates the scanner uses, and the `Token` record itself.
 */
module Tokens {

  /** A byte of source text, written as the character whose code is that byte. */
  type Byte = c: char | c as int < 256

  /** `TokenType` is a Go `int16`; the named kinds below are its values 0 to 40. */
  newtype TokenType = x: int | -0x8000 <= x < 0x8000

  const None: TokenType := 0

  // Single-character tokens
  const LeftParen: TokenType := 1
  const RightParen: TokenType := 2
  const LeftBrace: TokenType := 3
  const RightBrace: TokenType := 4
  const Comma: TokenType := 5
  const Dot: TokenType := 6
  const Minus: TokenType := 7
  const Plus: TokenType := 8
  const Semicolon: TokenType := 9
  const Slash: TokenType := 10
  const Star: TokenType := 11

  // One- or two-character tokens
  const Bang: TokenType := 12
  const BangEqual: TokenType := 13
  const Equal: TokenType := 14
  const EqualEqual: TokenType := 15
  const Greater: TokenType := 16
  const GreaterEqual: TokenType := 17
  const Less: TokenType := 18
  const LessEqual: TokenType := 19

  // Literals
  const Identifier: TokenType := 20
  const String: TokenType := 21
  const Number: TokenType := 22
  const Comment: TokenType := 23

  // Keywords
  const And: TokenType := 24
  const Class: TokenType := 25
  const Else: TokenType := 26
  const False: TokenType := 27
  const Fun: TokenType := 28
  const For: TokenType := 29
  const If: TokenType := 30
  const Nil: TokenType := 31
  const Or: TokenType := 32
  const Print: TokenType := 33
  const Return: TokenType := 34
  const Super: TokenType := 35
  const This: TokenType := 36
  const True: TokenType := 37
  const Var: TokenType := 38
  const While: TokenType := 39

  const EOF: TokenType := 40

  /** The reserved words and the keyword kind each one is scanned as. */
  const ReservedKeywords: map<seq<Byte>, TokenType> := map[
    "and" := And,
    "class" := Class,
    "else" := Else,
    "false" := False,
    "fun" := Fun,
    "for" := For,
    "if" := If,
    "nil" := Nil,
    "or" := Or,
    "print" := Print,
    "return" := Return,
    "super" := Super,
    "this" := This,
    "true" := True,
    "var" := Var,
    "while" := While
  ]

  /** The printable name of each named kind, as the name table lists it; it identifies the kind. */
  function KindName(t: TokenType): (s: string)
    requires IsNamedKind(t)
    ensures KindOfName(s) == t
  {
    if t == None then "none"
    else if t == LeftParen then "leftparen"
    else if t == RightParen then "rightparen"
    else if t == LeftBrace then "leftbrace"
    else if t == RightBrace then "rightbrace"
    else if t == Comma then "comma"
    else if t == Dot then "dot"
    else if t == Minus then "minus"
    else if t == Plus then "plus"
    else if t == Semicolon then "semicolon"
    else if t == Slash then "slash"
    else if t == Star then "star"
    else if t == Bang then "bang"
    else if t == BangEqual then "bangequal"
    else if t == Equal then "equal"
    else if t == EqualEqual then "equalequal"
    else if t == Greater then "greater"
    else if t == GreaterEqual then "greaterequal"
    else if t == Less then "less"
    else if t == LessEqual then "lessequal"
    else if t == Identifier then "identifier"
    else if t == String then "string"
    else if t == Number then "number"
    else if t == Comment then "comment"
    else if t == And then "and"
    else if t == Class then "class"
    else if t == Else then "else"
    else if t == False then "false"
    else if t == Fun then "fun"
    else if t == For then "for"
    else if t == If then "if"
    else if t == Nil then "nil"
    else if t == Or then "or"
    else if t == Print then "print"
    else if t == Return then "return"
    else if t == Super then "super"
    else if t == This then "this"
    else if t == True then "true"
    else if t == Var then "var"
    else if t == While then "while"
    else "eof"
  }

  /** The name table: a name for every kind from `None` to `EOF`. */
  const TokenNames: map<TokenType, string> := map t | IsNamedKind(t) :: KindName(t)


  /** The kinds `TokenNames` knows: every value from `None` to `EOF`. */
  predicate IsNamedKind(t: TokenType) {
    None <= t <= EOF
  }

  /** The keyword kinds, from `And` to `While`. */
  predicate IsKeywordKind(t: TokenType) {
    And <= t <= While
  }

  // ---------------------------------------------------------------------------
  // Decimal rendering of an integer, as `%d` prints it

  function DigitChar(d: int): (c: char)
    requires 0 <= d < 10
    ensures '0' <= c <= '9' && c as int - '0' as int == d
  {
    ('0' as int + d) as char
  }

  /** The decimal digits of `n`, most significant first, without leading zeros. */
  function NatDecimal(n: nat): (s: string)
    ensures |s| > 0 && forall i | 0 <= i < |s| :: '0' <= s[i] <= '9'
    decreases n
  {
    if n < 10 then [DigitChar(n)] else NatDecimal(n / 10) + [DigitChar(n % 10)]
  }

  /** `n` in decimal, with a leading `-` when it is negative. */
  function IntDecimal(n: int): (s: string)
    ensures |s| > 0 && (s[0] == '-' <==> n < 0)
  {
    if n < 0 then "-" + NatDecimal(-n) else NatDecimal(n)
  }

  /** The value of a string of decimal digits: the partner of `NatDecimal`. */
  function DigitsValue(s: string): nat
    requires forall i | 0 <= i < |s| :: '0' <= s[i] <= '9'
  {
    if s == [] then 0 else DigitsValue(s[..|s| - 1]) * 10 + (s[|s| - 1] as int - '0' as int)
  }

  lemma {:induction false} NatDecimalRoundTrip(n: nat)
    ensures DigitsValue(NatDecimal(n)) == n
    decreases n
  {
    var s := NatDecimal(n);
    if n >= 10 {
      NatDecimalRoundTrip(n / 10);
      assert s[..|s| - 1] == NatDecimal(n / 10);
    }
  }

  /** Distinct naturals print differently. */
  lemma NatDecimalInjective(m: nat, n: nat)
    ensures NatDecimal(m) == NatDecimal(n) ==> m == n
  {
    NatDecimalRoundTrip(m);
    NatDecimalRoundTrip(n);
  }

  /** Distinct integers print differently. */
  lemma IntDecimalInjective(a: int, b: int)
    ensures IntDecimal(a) == IntDecimal(b) ==> a == b
  {
    var sa, sb := IntDecimal(a), IntDecimal(b);
    if sa == sb {
      if a < 0 {
        assert b < 0;
        assert NatDecimal(-a) == sa[1..] == sb[1..] == NatDecimal(-b);
        NatDecimalInjective(-a, -b);
      } else {
        assert b >= 0;
        NatDecimalInjective(a, b);
      }
    }
  }

  // ---------------------------------------------------------------------------
  // TokenType.String

  /** The name of a kind: its table entry, or `TokenType(n)` for any other value. */
  function TokenTypeString(t: TokenType): (s: string)
    ensures t in TokenNames ==> s == TokenNames[t]
    ensures t !in TokenNames ==> s == "TokenType(" + IntDecimal(t as int) + ")"
  {
    if t in TokenNames then TokenNames[t] else "TokenType(" + IntDecimal(t as int) + ")"
  }

  /** `TokenNames` covers exactly the named kinds. */
  lemma TokenNamesDomain()
    ensures forall t :: t in TokenNames <==> IsNamedKind(t)
  {
  }

  /**
   * The kind a name belongs to, read off its length, first and last byte (which
   * together tell all the names apart); `-1` for a string that is no kind's name.
   */
  ghost function KindOfName(s: string): TokenType {
    if |s| == 2 then
      if s[0] == 'i' && s[1] == 'f' then If
      else if s[0] == 'o' && s[1] == 'r' then Or
      else -1
    else if |s| == 3 then
      if s[0] == 'd' && s[2] == 't' then Dot
      else if s[0] == 'a' && s[2] == 'd' then And
      else if s[0] == 'f' && s[2] == 'n' then Fun
      else if s[0] == 'f' && s[2] == 'r' then For
      else if s[0] == 'n' && s[2] == 'l' then Nil
      else if s[0] == 'v' && s[2] == 'r' then Var
      else if s[0] == 'e' && s[2] == 'f' then EOF
      else -1
    else if |s| == 4 then
      if s[0] == 'n' && s[3] == 'e' then None
      else if s[0] == 'p' && s[3] == 's' then Plus
      else if s[0] == 's' && s[3] == 'r' then Star
      else if s[0] == 'b' && s[3] == 'g' then Bang
      else if s[0] == 'l' && s[3] == 's' then Less
      else if s[0] == 'e' && s[3] == 'e' then Else
      else if s[0] == 't' && s[3] == 's' then This
      else if s[0] == 't' && s[3] == 'e' then True
      else -1
    else if |s| == 5 then
      if s[0] == 'c' && s[4] == 'a' then Comma
      else if s[0] == 'm' && s[4] == 's' then Minus
      else if s[0] == 's' && s[4] == 'h' then Slash
      else if s[0] == 'e' && s[4] == 'l' then Equal
      else if s[0] == 'c' && s[4] == 's' then Class
      else if s[0] == 'f' && s[4] == 'e' then False
      else if s[0] == 'p' && s[4] == 't' then Print
      else if s[0] == 's' && s[4] == 'r' then Super
      else if s[0] == 'w' && s[4] == 'e' then While
      else -1
    else if |s| == 6 then
      if s[0] == 's' && s[5] == 'g' then String
      else if s[0] == 'n' && s[5] == 'r' then Number
      else if s[0] == 'r' && s[5] == 'n' then Return
      else -1
    else if |s| == 7 then
      if s[0] == 'g' && s[6] == 'r' then Greater
      else if s[0] == 'c' && s[6] == 't' then Comment
      else -1
    else if |s| == 9 then
      if s[0] == 'l' && s[8] == 'n' then LeftParen
      else if s[0] == 'l' && s[8] == 'e' then LeftBrace
      else if s[0] == 's' && s[8] == 'n' then Semicolon
      else if s[0] == 'b' && s[8] == 'l' then BangEqual
      else if s[0] == 'l' && s[8] == 'l' then LessEqual
      else -1
    else if |s| == 10 then
      if s[0] == 'r' && s[9] == 'n' then RightParen
      else if s[0] == 'r' && s[9] == 'e' then RightBrace
      else if s[0] == 'e' && s[9] == 'l' then EqualEqual
      else if s[0] == 'i' && s[9] == 'r' then Identifier
      else -1
    else if |s| == 12 then
      if s[0] == 'g' && s[11] == 'l' then GreaterEqual
      else -1
    else -1
  }

  /** Every name in the table leads back to its kind. */
  lemma TokenNamesDecode()
    ensures forall t | t in TokenNames :: KindOfName(TokenNames[t]) == t
  {
    forall t | t in TokenNames ensures KindOfName(TokenNames[t]) == t {
      var _ := KindName(t);
    }
  }

  /** Every named kind has its own name. */
  lemma TokenNamesDistinct()
    ensures forall a, b | a in TokenNames && b in TokenNames && a != b :: TokenNames[a] != TokenNames[b]
  {
    TokenNamesDecode();
  }

  /** Two kinds print the same exactly when they are the same kind. */
  lemma TokenTypeStringInjective(a: TokenType, b: TokenType)
    ensures TokenTypeString(a) == TokenTypeString(b) <==> a == b
  {
    if a != b {
      if a in TokenNames && b in TokenNames {
        TokenNamesDistinct();
      } else if a !in TokenNames && b !in TokenNames {
        if TokenTypeString(a) == TokenTypeString(b) {
          var s := TokenTypeString(a);
          assert IntDecimal(a as int) == s[10..|s| - 1] == IntDecimal(b as int);
          IntDecimalInjective(a as int, b as int);
        }
      } else if a in TokenNames {
        NameIsNoFallback(a, b as int);
      } else {
        NameIsNoFallback(b, a as int);
      }
    }
  }

  /** No table name has the `TokenType(n)` form used for the other values. */
  lemma NameIsNoFallback(t: TokenType, n: int)
    requires t in TokenNames
    ensures TokenNames[t] != "TokenType(" + IntDecimal(n) + ")"
  {
    var f := "TokenType(" + IntDecimal(n) + ")";
    assert f[0] == 'T' && |f| >= 12;
    assert KindOfName(f) == -1;
    TokenNamesDecode();
  }



  /** The reserved-word table holds exactly the sixteen listed words. */
  lemma ReservedKeywordsWords()
    ensures ReservedKeywords.Keys == {"and", "class", "else", "false", "fun", "for", "if", "nil",
                                      "or", "print", "return", "super", "this", "true", "var", "while"}
  {
  }

  /** Every reserved word is mapped to a keyword kind. */
  lemma ReservedKeywordsTable()
    ensures forall k | k in ReservedKeywords :: IsKeywordKind(ReservedKeywords[k])
  {
  }

  /** Distinct reserved words are scanned as distinct kinds. */
  lemma ReservedKeywordsInjective()
    ensures forall a, b | a in ReservedKeywords && b in ReservedKeywords && a != b ::
              ReservedKeywords[a] != ReservedKeywords[b]
  {
  }

  /** Every keyword kind's printed name is a reserved word, and that word is scanned as the kind. */
  lemma ReservedWordOfKind(t: TokenType)
    requires IsKeywordKind(t)
    ensures KindName(t) in ReservedKeywords && ReservedKeywords[KindName(t)] == t
  {
    if t <= Nil {
      ReservedWordOfEarlyKind(t);
    } else {
      ReservedWordOfLateKind(t);
    }
  }

  lemma ReservedWordOfEarlyKind(t: TokenType)
    requires And <= t <= Nil
    ensures KindName(t) in ReservedKeywords && ReservedKeywords[KindName(t)] == t
  {
    if t == And { assert KindName(t) == "and" && ReservedKeywords["and"] == t; }
    else if t == Class { assert KindName(t) == "class" && ReservedKeywords["class"] == t; }
    else if t == Else { assert KindName(t) == "else" && ReservedKeywords["else"] == t; }
    else if t == False { assert KindName(t) == "false" && ReservedKeywords["false"] == t; }
    else if t == Fun { assert KindName(t) == "fun" && ReservedKeywords["fun"] == t; }
    else if t == For { assert KindName(t) == "for" && ReservedKeywords["for"] == t; }
    else if t == If { assert KindName(t) == "if" && ReservedKeywords["if"] == t; }
    else if t == Nil { assert KindName(t) == "nil" && ReservedKeywords["nil"] == t; }
  }

  lemma ReservedWordOfLateKind(t: TokenType)
    requires Or <= t <= While
    ensures KindName(t) in ReservedKeywords && ReservedKeywords[KindName(t)] == t
  {
    if t == Or { assert KindName(t) == "or" && ReservedKeywords["or"] == t; }
    else if t == Print { assert KindName(t) == "print" && ReservedKeywords["print"] == t; }
    else if t == Return { assert KindName(t) == "return" && ReservedKeywords["return"] == t; }
    else if t == Super { assert KindName(t) == "super" && ReservedKeywords["super"] == t; }
    else if t == This { assert KindName(t) == "this" && ReservedKeywords["this"] == t; }
    else if t == True { assert KindName(t) == "true" && ReservedKeywords["true"] == t; }
    else if t == Var { assert KindName(t) == "var" && ReservedKeywords["var"] == t; }
    else if t == While { assert KindName(t) == "while" && ReservedKeywords["while"] == t; }
  }

  /** Every keyword kind is the kind of some reserved word. */
  lemma ReservedKeywordsCoverKeywords(t: TokenType)
    requires IsKeywordKind(t)
    ensures t in ReservedKeywords.Values
  {
    ReservedWordOfKind(t);
  }

  /** Each reserved word's kind is printed as the word itself. */
  lemma ReservedKeywordNames()
    ensures forall k | k in ReservedKeywords :: TokenNames[ReservedKeywords[k]] == k
  {
    forall k | k in ReservedKeywords ensures TokenNames[ReservedKeywords[k]] == k {
      var t := ReservedKeywords[k];
      ReservedKeywordsTable();
      ReservedWordOfKind(t);
      ReservedKeywordsInjective();
    }
  }

  // ---------------------------------------------------------------------------
  // Character classes

  /** `0` to `9`: the byte values 48 to 57. */
  predicate IsDigit(c: Byte)
    ensures IsDigit(c) <==> 48 <= c as int <= 57
  {
    '0' <= c <= '9'
  }

  /** An ASCII letter or `_`: the byte values 65 to 90, 97 to 122 and 95; never a digit. */
  predicate IsAlpha(c: Byte)
    ensures IsAlpha(c) <==> 65 <= c as int <= 90 || 97 <= c as int <= 122 || c as int == 95
    ensures IsAlpha(c) ==> !IsDigit(c)
  {
    'a' <= c <= 'z' || 'A' <= c <= 'Z' || c == '_'
  }

  /** A byte that may continue an identifier: exactly a letter, `_` or a digit. */
  predicate IsAlphaNumeric(c: Byte)
    ensures IsAlphaNumeric(c) <==> 48 <= c as int <= 57 || 65 <= c as int <= 90 || 97 <= c as int <= 122 || c as int == 95
  {
    IsAlpha(c) || IsDigit(c)
  }

  // ---------------------------------------------------------------------------
  // Tokens

  /**
   * A token's `Literal` payload, or the value of a literal expression; `NilValue`
   * is Go's `nil`. The scanner only ever stores strings (the text of a comment,
   * string or number); the parser adds booleans for `true` and `false`.
   */
  datatype Value = NilValue | Bool(b: bool) | Str(s: seq<Byte>)

  /** A position: the line, and the byte span within that line. */
  datatype Pos = Pos(line: int, start: int, end: int)

  datatype Token = Token(kind: TokenType, lexeme: seq<Byte>, literal: Value, pos: Pos)
}
