/**
 * The byte-level scanner of glox (glox/scan.go).
 *
 * The scanner makes one left-to-right pass over the source bytes. It keeps a
 * cursor, a line counter and the offset at which the current line starts,
 * appends tokens as it recognises them and collects errors rather than stopping
 * at the first one.
 *
 * The pure functions `Step`, `Run` and `Scan` say what one call of `scanToken`,
 * the loop of `ScanTokens` and a whole scan do; the class `Scanner` is the
 * stateful scanner, and each of its methods is proved to do what the matching
 * function says. The properties of scanning are lemmas about the functions.
 *
 * Three reads in the source index the byte under the cursor before checking that
 * the cursor is inside the source. Reading past the end is a run-time fault in
 * Go; here it is the explicit outcome `Fault` of a step and `Panicked` of a scan.
 */
module Scanning {
  import opened Tokens

  /** An unexpected byte, with the 1-based line and the column after the byte. */
  datatype ScanError = UnexpectedCharacter(c: Byte, line: int, col: int)

  /** What one call of `scanToken` reports besides its effect on the fields. */
  datatype StepOutcome =
    | Continue
    | Error(err: ScanError)
    | Fault(index: int)      // the source was read at `index`, past its end

  /** What `ScanTokens` returns: the tokens, all errors, or a fault. */
  datatype ScanResult =
    | Scanned(tokens: seq<Token>)
    | Errors(errs: seq<ScanError>)
    | Panicked(index: int)

  /** The scanner's fields, apart from the source itself. */
  datatype ScanState = ScanState(current: int, line: int, visited: int, tokens: seq<Token>)

  const Start: ScanState := ScanState(0, 0, 0, [])

  /** The cursor lies within the source, and the current line starts at or before it. */
  predicate ValidState(src: seq<Byte>, st: ScanState) {
    0 <= st.visited <= st.current <= |src|
  }

  // ---------------------------------------------------------------------------
  // Runs of bytes

  predicate NotNewline(c: Byte) { c != '\n' }

  predicate NotQuote(c: Byte) { c != '"' }

  /** The end of the longest run of bytes satisfying `p` that starts at `i`. */
  function RunEnd(src: seq<Byte>, i: nat, p: Byte -> bool): (j: nat)
    requires i <= |src|
    ensures i <= j <= |src|
    ensures forall k | i <= k < j :: p(src[k])
    ensures j == |src| || !p(src[j])
    decreases |src| - i
  {
    if i < |src| && p(src[i]) then RunEnd(src, i + 1, p) else i
  }

  /** How many newline bytes `s` holds. */
  function Newlines(s: seq<Byte>): nat {
    if s == [] then 0 else Newlines(s[..|s| - 1]) + (if s[|s| - 1] == '\n' then 1 else 0)
  }

  /**
   * The loop of the string case: from `i` up to the closing quote or the end of the
   * source, bumping the line counter at each newline and recording the newline's
   * index as the start of the line. Returns the stopping index, line and line start.
   */
  function StringScan(src: seq<Byte>, i: nat, line: int, visited: int): (r: (nat, int, int))
    requires i <= |src|
    ensures r.0 == RunEnd(src, i, NotQuote)
    ensures visited <= i ==> visited <= r.2 <= r.0
    decreases |src| - i
  {
    if i < |src| && src[i] != '"' then
      if src[i] == '\n' then StringScan(src, i + 1, line + 1, i) else StringScan(src, i + 1, line, visited)
    else
      (i, line, visited)
  }

  // ---------------------------------------------------------------------------
  // One step

  /** The kinds of the ten bytes that are always a token of their own. */
  function SingleCharKind(c: Byte): TokenType {
    match c
    case '(' => LeftParen
    case ')' => RightParen
    case '{' => LeftBrace
    case '}' => RightBrace
    case ',' => Comma
    case '.' => Dot
    case '-' => Minus
    case '+' => Plus
    case ';' => Semicolon
    case '*' => Star
    case _ => None
  }

  /** `!`, `=`, `<` and `>`: the kind alone, and the kind when `=` follows. */
  function OperatorKinds(c: Byte): (TokenType, TokenType) {
    match c
    case '!' => (Bang, BangEqual)
    case '=' => (Equal, EqualEqual)
    case '<' => (Less, LessEqual)
    case '>' => (Greater, GreaterEqual)
    case _ => (None, None)
  }

  /** The token for `src[start..end]`, with its span measured from the start of the line. */
  function MakeToken(src: seq<Byte>, start: int, end: int, line: int, visited: int,
                     kind: TokenType, literal: Value): (t: Token)
    requires 0 <= start <= end <= |src|
    ensures t.lexeme == src[start..end] && t.pos.end - t.pos.start == |t.lexeme|
  {
    Token(kind, src[start..end], literal, Pos(line, start - visited, end - visited))
  }

  /** `st` with the token from `start` up to the cursor appended. */
  function Emit(src: seq<Byte>, st: ScanState, start: int, kind: TokenType, literal: Value): (r: ScanState)
    requires 0 <= start <= st.current <= |src|
    ensures |r.tokens| == |st.tokens| + 1 && r.tokens[..|st.tokens|] == st.tokens
  {
    st.(tokens := st.tokens + [MakeToken(src, start, st.current, st.line, st.visited, kind, literal)])
  }

  /** A `//` comment without its slashes, and without one leading space when longer than a byte. */
  function CommentText(text: seq<Byte>): seq<Byte> {
    if |text| > 1 && text[0] == ' ' then text[1..] else text
  }

  /** The kind of a word: its keyword kind when it is reserved, `Identifier` otherwise. */
  function WordKind(text: seq<Byte>): TokenType {
    if text in ReservedKeywords then ReservedKeywords[text] else Identifier
  }

  /** The byte after the cursor, or the zero byte at the end of the source. */
  function Peek(src: seq<Byte>, i: nat): Byte {
    if i < |src| then src[i] else '\0'
  }

  /**
   * The `//` case of `scanToken`, entered with the cursor on the second slash: the
   * comment runs up to the next newline, which is left for the next step.
   */
  function CommentStep(src: seq<Byte>, st: ScanState, start: nat): (r: (ScanState, StepOutcome))
    requires ValidState(src, st) && st.current == start + 1 < |src| && src[start + 1] == '/'
    ensures r.1.Fault? ==> r.1.index == |src|
    ensures !r.1.Fault? ==> ValidState(src, r.0) && st.current < r.0.current
  {
    var e := RunEnd(src, start + 1, NotNewline);
    if e >= |src| then
      (st.(current := e), Fault(e))
    else
      var st' := Emit(src, st.(current := e), start, Comment, Str(CommentText(src[start + 2..e])));
      (st'.(line := st.line + 1, visited := e), Continue)
  }

  /** The `"` case of `scanToken`, entered with the cursor after the opening quote. */
  function StringStep(src: seq<Byte>, st: ScanState, start: nat): (r: (ScanState, StepOutcome))
    requires ValidState(src, st) && st.current == start + 1
    ensures r.1.Fault? ==> r.1.index == |src|
    ensures !r.1.Fault? ==> ValidState(src, r.0) && st.current < r.0.current
  {
    var (e, line, visited) := StringScan(src, start + 1, st.line, st.visited);
    if e >= |src| then
      (st.(current := e, line := line, visited := visited), Fault(e))
    else
      var st' := st.(current := e + 1, line := line, visited := visited);
      (Emit(src, st', start, String, Str(src[start + 1..e])), Continue)
  }

  /** When the string case finds the closing quote at `close`, it appends the string token. */
  lemma StringStepEmits(src: seq<Byte>, st: ScanState, start: nat, close: nat, line: int, visited: int)
    requires ValidState(src, st) && st.current == start + 1
    requires StringScan(src, start + 1, st.line, st.visited) == (close, line, visited) && close < |src|
    ensures start < close
    ensures StringStep(src, st, start) ==
              (Emit(src, st.(current := close + 1, line := line, visited := visited), start, String,
                    Str(src[start + 1..close])), Continue)
  {
  }

  /** The digit case of `scanToken`, entered with the cursor after the first digit. */
  function NumberStep(src: seq<Byte>, st: ScanState, start: nat): (r: (ScanState, StepOutcome))
    requires ValidState(src, st) && st.current == start + 1
    ensures r.1.Fault? ==> r.1.index == |src|
    ensures !r.1.Fault? ==> ValidState(src, r.0) && st.current <= r.0.current
  {
    var e := RunEnd(src, start + 1, IsDigit);
    if e >= |src| then
      (st.(current := e), Fault(e))
    else if src[e] == '.' && e + 1 >= |src| then
      (st.(current := e), Fault(e + 1))
    else
      var end := if src[e] == '.' && IsDigit(src[e + 1]) then RunEnd(src, e + 1, IsDigit) else e;
      (Emit(src, st.(current := end), start, Number, Str(src[start..end])), Continue)
  }

  /** When the digit case does not fault, it appends the number ending at `end`. */
  lemma NumberStepEmits(src: seq<Byte>, st: ScanState, start: nat, end: nat)
    requires ValidState(src, st) && st.current == start + 1
    requires var e := RunEnd(src, start + 1, IsDigit);
             && e < |src| && !(src[e] == '.' && e + 1 >= |src|)
             && end == if src[e] == '.' && IsDigit(src[e + 1]) then RunEnd(src, e + 1, IsDigit) else e
    ensures start <= end <= |src|
    ensures NumberStep(src, st, start) == (Emit(src, st.(current := end), start, Number, Str(src[start..end])), Continue)
  {
  }

  /** The letter case of `scanToken`, entered with the cursor after the first letter. */
  function WordStep(src: seq<Byte>, st: ScanState, start: nat): (r: ScanState)
    requires ValidState(src, st) && st.current == start + 1
    ensures ValidState(src, r) && st.current <= r.current
  {
    var e := RunEnd(src, start + 1, IsAlphaNumeric);
    Emit(src, st.(current := e), start, WordKind(src[start..e]), NilValue)
  }

  /**
   * The cases of `scanToken` for the bytes that always make a token of their own,
   * and for `!`, `=`, `<` and `>`, which take a following `=` into the token.
   */
  function PunctuationStep(src: seq<Byte>, st: ScanState, start: nat): (r: ScanState)
    requires ValidState(src, st) && st.current == start + 1
    ensures ValidState(src, r) && st.current <= r.current
  {
    var c := src[start];
    if SingleCharKind(c) != None then
      Emit(src, st, start, SingleCharKind(c), NilValue)
    else if Peek(src, start + 1) == '=' then
      Emit(src, st.(current := start + 2), start, OperatorKinds(c).1, NilValue)
    else
      Emit(src, st, start, OperatorKinds(c).0, NilValue)
  }

  /** One call of `scanToken`: the new fields and the outcome. */
  function Step(src: seq<Byte>, st: ScanState): (r: (ScanState, StepOutcome))
    requires ValidState(src, st) && st.current < |src|
    ensures r.1.Fault? ==> r.1.index == |src|
    ensures !r.1.Fault? ==> ValidState(src, r.0) && st.current < r.0.current
  {
    var start := st.current;
    var c := src[start];
    var next := st.(current := start + 1);
    var peek := Peek(src, start + 1);
    if c == '\n' then
      (next.(line := st.line + 1, visited := start + 1), Continue)
    else if c == ' ' || c == '\r' || c == '\t' then
      (next, Continue)
    else if c == '/' then
      if peek == '/' then CommentStep(src, next, start) else (Emit(src, next, start, Slash, NilValue), Continue)
    else if SingleCharKind(c) != None || OperatorKinds(c).0 != None then
      (PunctuationStep(src, next, start), Continue)
    else if c == '"' then
      StringStep(src, next, start)
    else if IsDigit(c) then
      NumberStep(src, next, start)
    else if IsAlpha(c) then
      (WordStep(src, next, start), Continue)
    else
      (next, Error(UnexpectedCharacter(c, st.line + 1, start + 1 - st.visited)))
  }

  // ---------------------------------------------------------------------------
  // The whole scan

  /** The token appended at the end of the input. */
  function EofToken(line: int): (t: Token)
    ensures t.kind == EOF && t.lexeme == [] && t.literal == NilValue
    ensures t.pos.line == line + 1 && t.pos.start == t.pos.end == 0
  {
    Token(EOF, [], NilValue, Pos(line + 1, 0, 0))
  }

  /**
   * The loop of `ScanTokens` from state `st`, with `errs` collected so far:
   * step while the cursor is inside the source, then append the EOF token.
   */
  function Run(src: seq<Byte>, st: ScanState, errs: seq<ScanError>): (r: (ScanState, ScanResult))
    requires ValidState(src, st)
    ensures r.1.Panicked? ==> r.1.index == |src|
    ensures !r.1.Panicked? ==> r.0.current == |src| && r.0.tokens != [] && r.0.tokens[|r.0.tokens| - 1] == EofToken(r.0.line)
    ensures r.1.Scanned? ==> errs == [] && r.1.tokens == r.0.tokens
    ensures r.1.Errors? ==> |r.1.errs| > 0 && errs <= r.1.errs
    decreases |src| - st.current
  {
    if st.current >= |src| then
      var tokens := st.tokens + [EofToken(st.line)];
      (st.(tokens := tokens), if |errs| > 0 then Errors(errs) else Scanned(tokens))
    else
      var (st', out) := Step(src, st);
      match out
      case Fault(i) => (st', Panicked(i))
      case Error(e) => Run(src, st', errs + [e])
      case Continue => Run(src, st', errs)
  }

  /** Scanning a whole source with a new scanner. */
  function Scan(src: seq<Byte>): (r: ScanResult)
    ensures r.Panicked? ==> r.index == |src|
    ensures r.Errors? ==> |r.errs| > 0
    ensures r.Scanned? ==> r.tokens != [] && r.tokens[|r.tokens| - 1].kind == EOF
  {
    Run(src, Start, []).1
  }

  // ---------------------------------------------------------------------------
  // The stateful scanner

  class Scanner {
    var current: int
    var line: int
    /** How many bytes the lines already passed hold: `current` minus this is the column. */
    var visitedLinesLen: int
    const source: seq<Byte>
    var tokens: seq<Token>

    function State(): ScanState
      reads this
    {
      ScanState(current, line, visitedLinesLen, tokens)
    }

    predicate Valid()
      reads this
    {
      ValidState(source, State())
    }

    /** NewScanner */
    constructor (source: seq<Byte>)
      ensures this.source == source && State() == Start && Valid()
    {
      this.source := source;
      current, line, visitedLinesLen := 0, 0, 0;
      tokens := [];
    }

    method ScanTokens() returns (r: ScanResult)
      requires Valid()
      modifies this
      ensures (State(), r) == Run(source, old(State()), [])
    {
      var errs: seq<ScanError> := [];
      while current < |source|
        invariant Valid()
        invariant Run(source, State(), errs) == Run(source, old(State()), [])
        decreases |source| - current
      {
        var out := ScanToken();
        match out
        case Fault(i) =>
          return Panicked(i);
        case Error(e) =>
          errs := errs + [e];
        case Continue =>
      }
      tokens := tokens + [EofToken(line)];
      if |errs| > 0 {
        r := Errors(errs);
      } else {
        r := Scanned(tokens);
      }
    }

    method ScanToken() returns (out: StepOutcome)
      requires Valid() && current < |source|
      modifies this
      ensures (State(), out) == Step(source, old(State()))
    {
      var start := current;
      var c := source[current];
      current := current + 1;
      var peek: Byte := '\0';
      if current < |source| {
        peek := source[current];
      }
      out := Continue;
      match c
      case '\n' =>
        line := line + 1;
        visitedLinesLen := current;
      case ' ' | '\r' | '\t' =>
      case '/' =>
        if peek == '/' {
          out := ScanComment(start);
        } else {
          AddToken(start, Slash);
        }
      case '(' => AddToken(start, LeftParen);
      case ')' => AddToken(start, RightParen);
      case '{' => AddToken(start, LeftBrace);
      case '}' => AddToken(start, RightBrace);
      case ',' => AddToken(start, Comma);
      case '.' => AddToken(start, Dot);
      case '-' => AddToken(start, Minus);
      case '+' => AddToken(start, Plus);
      case ';' => AddToken(start, Semicolon);
      case '*' => AddToken(start, Star);
      case '!' =>
        if peek == '=' {
          current := current + 1;
          AddToken(start, BangEqual);
        } else {
          AddToken(start, Bang);
        }
      case '=' =>
        if peek == '=' {
          current := current + 1;
          AddToken(start, EqualEqual);
        } else {
          AddToken(start, Equal);
        }
      case '<' =>
        if peek == '=' {
          current := current + 1;
          AddToken(start, LessEqual);
        } else {
          AddToken(start, Less);
        }
      case '>' =>
        if peek == '=' {
          current := current + 1;
          AddToken(start, GreaterEqual);
        } else {
          AddToken(start, Greater);
        }
      case '"' =>
        out := ScanString(start);
      case _ =>
        if IsDigit(c) {
          out := ScanNumber(start);
        } else if IsAlpha(c) {
          ScanWord(start);
        } else {
          out := Error(UnexpectedCharacter(c, line + 1, current - visitedLinesLen));
        }
    }

    /** The `//` case: consume up to the newline, then append the comment token. */
    method ScanComment(start: nat) returns (out: StepOutcome)
      requires Valid() && current == start + 1 < |source| && source[start + 1] == '/'
      modifies this
      ensures (State(), out) == CommentStep(source, old(State()), start)
    {
      current := SkipWhile(current, NotNewline);
      if current >= |source| {
        return Fault(current);
      }
      // The literal drops `//` and at most one space
      var comment := source[start + 2..current];
      if |comment| > 1 && comment[0] == ' ' {
        comment := comment[1..];
      }
      AddLiteralToken(start, Comment, Str(comment));
      line := line + 1;
      visitedLinesLen := current;
      out := Continue;
    }

    /** The `"` case: consume up to the closing quote, then append the string token. */
    method ScanString(start: nat) returns (out: StepOutcome)
      requires Valid() && current == start + 1
      modifies this
      ensures (State(), out) == StringStep(source, old(State()), start)
    {
      ghost var st0 := State();
      SkipStringBody();
      if current >= |source| {
        return Fault(current);
      }
      StringStepEmits(source, st0, start, current, line, visitedLinesLen);
      current := current + 1;
      AddLiteralToken(start, String, Str(source[start + 1..current - 1]));
      out := Continue;
    }

    /** The loop of the `"` case: up to the closing quote, counting the lines it passes. */
    method SkipStringBody()
      requires Valid()
      modifies this`current, this`line, this`visitedLinesLen
      ensures (current, line, visitedLinesLen) == StringScan(source, old(current), old(line), old(visitedLinesLen))
    {
      ghost var i0, line0, visited0 := current, line, visitedLinesLen;
      while current < |source| && source[current] != '"'
        invariant i0 <= current <= |source|
        invariant 0 <= visitedLinesLen <= current
        invariant StringScan(source, current, line, visitedLinesLen) == StringScan(source, i0, line0, visited0)
        decreases |source| - current
      {
        if source[current] == '\n' {
          line := line + 1;
          visitedLinesLen := current;
        }
        current := current + 1;
      }
    }

    /** The digit case: consume the digits and an optional fraction, then append the number token. */
    method ScanNumber(start: nat) returns (out: StepOutcome)
      requires Valid() && current == start + 1
      modifies this
      ensures (State(), out) == NumberStep(source, old(State()), start)
    {
      ghost var st0 := State();
      current := SkipWhile(current, IsDigit);
      if current >= |source| {
        return Fault(current);
      }
      if source[current] == '.' {
        if current + 1 >= |source| {
          return Fault(current + 1);
        }
        if IsDigit(source[current + 1]) {
          // A dot followed by a digit: take the dot and the fraction digits
          current := current + 1;
          current := SkipWhile(current, IsDigit);
        }
      }
      AddLiteralToken(start, Number, Str(source[start..current]));
      out := Continue;
      NumberStepEmits(source, st0, start, current);
    }

    /** The letter case: consume the rest of the word, then append it as a keyword or identifier. */
    method ScanWord(start: nat)
      requires Valid() && current == start + 1
      modifies this
      ensures State() == WordStep(source, old(State()), start)
    {
      current := SkipWhile(current, IsAlphaNumeric);
      AddIdentifier(start);
    }

    /** Moves from `i` over the bytes satisfying `p`, checking the bound before each read. */
    method SkipWhile(i: nat, p: Byte -> bool) returns (j: nat)
      requires i <= |source|
      ensures j == RunEnd(source, i, p)
    {
      j := i;
      while j < |source| && p(source[j])
        invariant i <= j <= |source|
        invariant RunEnd(source, j, p) == RunEnd(source, i, p)
        decreases |source| - j
      {
        j := j + 1;
      }
    }

    /** Appends the token from `start` up to the cursor, without a literal. */
    method AddToken(start: int, kind: TokenType)
      requires 0 <= start <= current <= |source|
      modifies this`tokens
      ensures tokens == old(tokens) + [MakeToken(source, start, current, line, visitedLinesLen, kind, NilValue)]
    {
      AddLiteralToken(start, kind, NilValue);
    }

    /** Appends the token from `start` up to the cursor, carrying `literal`. */
    method AddLiteralToken(start: int, kind: TokenType, literal: Value)
      requires 0 <= start <= current <= |source|
      modifies this`tokens
      ensures tokens == old(tokens) + [MakeToken(source, start, current, line, visitedLinesLen, kind, literal)]
    {
      tokens := tokens + [Token(kind, source[start..current], literal,
                                Pos(line, start - visitedLinesLen, current - visitedLinesLen))];
    }

    /** Appends the word from `start` up to the cursor as a keyword or an identifier. */
    method AddIdentifier(start: int)
      requires 0 <= start <= current <= |source|
      modifies this`tokens
      ensures tokens == old(tokens) + [MakeToken(source, start, current, line, visitedLinesLen,
                                                 WordKind(source[start..current]), NilValue)]
    {
      var text := source[start..current];
      if text in ReservedKeywords {
        AddToken(start, ReservedKeywords[text]);
      } else {
        AddToken(start, Identifier);
      }
    }
  }
}
