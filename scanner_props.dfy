/**
 * What the glox scanner promises (glox/scan.go), stated and proved about the
 * functions `Step`, `Run` and `Scan` that the `Scanner` class is proved to follow.
 */
module ScanningProps {
  import opened Tokens
  import opened Scanning

  /** The token `Step` added, if it added one. */
  predicate AddedToken(before: ScanState, after: ScanState) {
    |after.tokens| == |before.tokens| + 1 && after.tokens[..|before.tokens|] == before.tokens
  }

  // ---------------------------------------------------------------------------
  // Lines and strings

  /** The string loop counts the newlines it passes over. */
  lemma {:induction false} StringScanCountsLines(src: seq<Byte>, i: nat, line: int, visited: int)
    requires i <= |src|
    ensures var (e, line', _) := StringScan(src, i, line, visited);
            line' == line + Newlines(src[i..e])
    decreases |src| - i
  {
    var (e, line', _) := StringScan(src, i, line, visited);
    if i < |src| && src[i] != '"' {
      var l := if src[i] == '\n' then line + 1 else line;
      var v := if src[i] == '\n' then i else visited;
      StringScanCountsLines(src, i + 1, l, v);
      NewlinesOfCons(src[i], src[i + 1..e]);
      assert src[i..e] == [src[i]] + src[i + 1..e];
    } else {
      assert src[i..e] == [];
    }
  }

  lemma {:induction false} NewlinesOfCons(c: Byte, s: seq<Byte>)
    ensures Newlines([c] + s) == Newlines(s) + (if c == '\n' then 1 else 0)
    decreases |s|
  {
    if s != [] {
      var t := [c] + s;
      assert t[..|t| - 1] == [c] + s[..|s| - 1];
      NewlinesOfCons(c, s[..|s| - 1]);
    } else {
      assert [c] + s == [c];
      assert ([c] + s)[..0] == [];
    }
  }

  /**
   * A string token: its lexeme runs from the opening quote up to and including the
   * first quote after it, its literal is the bytes strictly between the quotes, and
   * the line counter grows by the number of newlines inside. Without a closing quote
   * the step reads one byte past the end of the source and faults.
   */
  lemma StringStepSpec(src: seq<Byte>, st: ScanState, start: nat)
    requires ValidState(src, st) && st.current == start + 1
    ensures var (st', out) := StringStep(src, st, start);
            var close := RunEnd(src, start + 1, NotQuote);
            && (out.Fault? <==> forall k | start < k < |src| :: src[k] != '"')
            && (!out.Fault? ==>
                  && out == Continue
                  && close < |src| && src[close] == '"'
                  && st'.current == close + 1
                  && st'.line == st.line + Newlines(src[start + 1..close])
                  && AddedToken(st, st')
                  && st'.tokens[|st.tokens|].kind == String
                  && st'.tokens[|st.tokens|].lexeme == src[start..close + 1]
                  && st'.tokens[|st.tokens|].literal == Str(src[start + 1..close]))
  {
    var close := RunEnd(src, start + 1, NotQuote);
    StringScanCountsLines(src, start + 1, st.line, st.visited);
    if close == |src| {
      forall k | start < k < |src| ensures src[k] != '"' {
        assert NotQuote(src[k]);
      }
    } else {
      assert !NotQuote(src[close]);
    }
  }

  /** A `"` under the cursor selects the string case. */
  lemma StepString(src: seq<Byte>, st: ScanState)
    requires ValidState(src, st) && st.current < |src| && src[st.current] == '"'
    ensures Step(src, st) == StringStep(src, st.(current := st.current + 1), st.current)
  {
  }

  // ---------------------------------------------------------------------------
  // Comments

  /**
   * A comment token: its lexeme runs from `//` up to the next newline, which is not
   * consumed; its literal is the text after `//` with one leading space removed when
   * that text is longer than one byte. The step itself bumps the line counter. A
   * comment that is not followed by a newline faults.
   */
  lemma CommentStepSpec(src: seq<Byte>, st: ScanState)
    requires ValidState(src, st) && st.current + 1 < |src|
    requires src[st.current] == '/' && src[st.current + 1] == '/'
    ensures var (st', out) := Step(src, st);
            var eol := RunEnd(src, st.current + 1, NotNewline);
            && (out.Fault? <==> forall k | st.current < k < |src| :: src[k] != '\n')
            && (!out.Fault? ==>
                  && out == Continue
                  && src[eol] == '\n'
                  && st'.current == eol
                  && st'.line == st.line + 1 && st'.visited == eol
                  && AddedToken(st, st')
                  && st'.tokens[|st.tokens|].kind == Comment
                  && st'.tokens[|st.tokens|].lexeme == src[st.current..eol]
                  && st'.tokens[|st.tokens|].literal == Str(CommentText(src[st.current + 2..eol])))
  {
    var start := st.current;
    StepComment(src, st);
    var eol := RunEnd(src, start + 1, NotNewline);
    if eol == |src| {
      forall k | start < k < |src| ensures src[k] != '\n' {
        assert NotNewline(src[k]);
      }
    } else {
      assert !NotNewline(src[eol]);
    }
  }

  /** `//` under the cursor selects the comment case. */
  lemma StepComment(src: seq<Byte>, st: ScanState)
    requires ValidState(src, st) && st.current + 1 < |src|
    requires src[st.current] == '/' && src[st.current + 1] == '/'
    ensures Step(src, st) == CommentStep(src, st.(current := st.current + 1), st.current)
  {
  }

  /**
   * The line counter grows twice for a comment and the newline that ends it: once
   * in the comment step, and again when the next step scans the newline.
   */
  lemma CommentCountsItsNewlineTwice(src: seq<Byte>, st: ScanState)
    requires ValidState(src, st) && st.current + 1 < |src|
    requires src[st.current] == '/' && src[st.current + 1] == '/'
    requires exists k | st.current < k < |src| :: src[k] == '\n'
    ensures var (st1, _) := Step(src, st);
            st1.current < |src| && src[st1.current] == '\n' &&
            Step(src, st1).0.line == st.line + 2
  {
    CommentStepSpec(src, st);
  }

  // ---------------------------------------------------------------------------
  // Numbers

  /** Digits, optionally followed by a dot and at least one more digit. */
  predicate IsNumberText(s: seq<Byte>) {
    exists d | 0 < d <= |s| :: IsNumberTextSplit(s, d)
  }

  /** `s` is `d` digits, then either nothing or a dot and at least one more digit. */
  predicate IsNumberTextSplit(s: seq<Byte>, d: int) {
    && 0 < d <= |s|
    && (forall k | 0 <= k < d :: IsDigit(s[k]))
    && (d == |s| || (d + 1 < |s| && s[d] == '.' && forall k | d < k < |s| :: IsDigit(s[k])))
  }

  /**
   * A number token is the longest text of the form digits, or digits `.` digits,
   * starting at the cursor; its literal is that text itself, unparsed. Reading the
   * byte after the digits (or after a trailing dot) faults at the end of the source.
   */
  lemma NumberStepSpec(src: seq<Byte>, st: ScanState, start: nat)
    requires ValidState(src, st) && st.current == start + 1 <= |src| && IsDigit(src[start])
    ensures var (st', out) := NumberStep(src, st, start);
            var e := RunEnd(src, start + 1, IsDigit);
            && (out.Fault? <==> e == |src| || (src[e] == '.' && e + 1 == |src|))
            && (!out.Fault? ==>
                  && out == Continue
                  && AddedToken(st, st')
                  && (st'.current == |src| || !IsDigit(src[st'.current]))
                  && var t := st'.tokens[|st.tokens|];
                  && t.kind == Number
                  && t.lexeme == src[start..st'.current]
                  && t.literal == Str(t.lexeme)
                  && IsNumberText(t.lexeme)
                  && (st'.current == e <==> !(src[e] == '.' && IsDigit(src[e + 1]))))
  {
    var (st', out) := NumberStep(src, st, start);
    var e := RunEnd(src, start + 1, IsDigit);
    if !out.Fault? {
      var lexeme := src[start..st'.current];
      var d := e - start;
      assert forall k | 0 <= k < d :: lexeme[k] == src[start + k];
      assert forall k | 0 <= k < d :: IsDigit(lexeme[k]);
      if src[e] == '.' && IsDigit(src[e + 1]) {
        var e2 := RunEnd(src, e + 1, IsDigit);
        assert st'.current == e2 && d + 1 < |lexeme|;
        assert forall k | d < k < |lexeme| :: lexeme[k] == src[start + k];
        assert lexeme[d] == '.';
      } else {
        assert st'.current == e && d == |lexeme|;
      }
      assert IsNumberTextSplit(lexeme, d);
    }
  }

  /** A digit under the cursor selects the number case. */
  lemma StepNumber(src: seq<Byte>, st: ScanState)
    requires ValidState(src, st) && st.current < |src| && IsDigit(src[st.current])
    ensures Step(src, st) == NumberStep(src, st.(current := st.current + 1), st.current)
  {
  }

  // ---------------------------------------------------------------------------
  // Words

  /**
   * A word token is the longest run of letters, digits and `_` starting at a
   * letter or `_`; it gets the keyword kind exactly when it is a reserved word, and
   * `Identifier` otherwise. Words never fault.
   */
  lemma WordStepSpec(src: seq<Byte>, st: ScanState)
    requires ValidState(src, st) && st.current < |src| && IsAlpha(src[st.current])
    ensures var (st', out) := Step(src, st);
            && out == Continue
            && AddedToken(st, st')
            && (st'.current == |src| || !IsAlphaNumeric(src[st'.current]))
            && var t := st'.tokens[|st.tokens|];
            && t.lexeme == src[st.current..st'.current]
            && (forall k | 0 <= k < |t.lexeme| :: IsAlphaNumeric(t.lexeme[k]))
            && (t.lexeme in ReservedKeywords ==> t.kind == ReservedKeywords[t.lexeme])
            && (t.lexeme !in ReservedKeywords ==> t.kind == Identifier)
  {
    StepWord(src, st);
    var st' := WordStep(src, st.(current := st.current + 1), st.current);
    var t := st'.tokens[|st.tokens|];
    assert forall k | 0 <= k < |t.lexeme| :: t.lexeme[k] == src[st.current + k];
  }

  /** A letter or `_` under the cursor selects the word case. */
  lemma StepWord(src: seq<Byte>, st: ScanState)
    requires ValidState(src, st) && st.current < |src| && IsAlpha(src[st.current])
    ensures Step(src, st) == (WordStep(src, st.(current := st.current + 1), st.current), Continue)
  {
    var c := src[st.current];
    assert SingleCharKind(c) == None && OperatorKinds(c).0 == None && !IsDigit(c);
  }

  // ---------------------------------------------------------------------------
  // Operators and unexpected bytes

  /**
   * `!`, `=`, `<` and `>` look one byte ahead: followed by `=` they give the
   * two-byte token and consume both bytes, otherwise the one-byte token.
   */
  lemma OperatorStepSpec(src: seq<Byte>, st: ScanState)
    requires ValidState(src, st) && st.current < |src|
    requires src[st.current] in {'!', '=', '<', '>'}
    ensures var (st', out) := Step(src, st);
            var c := src[st.current];
            var two := st.current + 1 < |src| && src[st.current + 1] == '=';
            && out == Continue
            && st'.current == st.current + (if two then 2 else 1)
            && AddedToken(st, st')
            && st'.tokens[|st.tokens|].lexeme == src[st.current..st'.current]
            && st'.tokens[|st.tokens|].kind ==
                 (match c
                  case '!' => if two then BangEqual else Bang
                  case '=' => if two then EqualEqual else Equal
                  case '<' => if two then LessEqual else Less
                  case _ => if two then GreaterEqual else Greater)
  {
  }

  /** A byte that starts no token is an error carrying the byte, its line and column; the scan goes on after it. */
  lemma UnexpectedStepSpec(src: seq<Byte>, st: ScanState)
    requires ValidState(src, st) && st.current < |src|
    requires var c := src[st.current];
             c !in {'\n', ' ', '\r', '\t', '/', '"', '!', '=', '<', '>'} &&
             SingleCharKind(c) == None && !IsDigit(c) && !IsAlpha(c)
    ensures Step(src, st) ==
              (st.(current := st.current + 1),
               Error(UnexpectedCharacter(src[st.current], st.line + 1, st.current + 1 - st.visited)))
  {
  }

  /** After an unexpected byte the loop of `ScanTokens` goes on, with the error recorded. */
  lemma UnexpectedDoesNotStop(src: seq<Byte>, st: ScanState, errs: seq<ScanError>)
    requires ValidState(src, st) && st.current < |src|
    requires Step(src, st).1.Error?
    ensures Run(src, st, errs) == Run(src, Step(src, st).0, errs + [Step(src, st).1.err])
  {
  }

  /** Every token a step adds spans exactly the bytes the step consumed, and is not an EOF token. */
  lemma StepTokenSpansLexeme(src: seq<Byte>, st: ScanState)
    requires ValidState(src, st) && st.current < |src|
    ensures var (st', out) := Step(src, st);
            !out.Fault? ==>
              && (out.Error? ==> st'.tokens == st.tokens)
              && (st'.tokens == st.tokens ||
                  (AddedToken(st, st') &&
                   var t := st'.tokens[|st.tokens|];
                   t.kind != EOF && t.lexeme == src[st.current..st'.current] &&
                   t.pos.end - t.pos.start == |t.lexeme|))
  {
    var c := src[st.current];
    if c == '"' {
      StepString(src, st);
    } else if IsDigit(c) {
      StepNumber(src, st);
    } else if IsAlpha(c) {
      StepWord(src, st);
      ReservedKeywordsTable();
    }
  }

  // ---------------------------------------------------------------------------
  // Whole scans

  /** No token in `ts` has the kind `EOF`, and each one's span is as long as its lexeme. */
  predicate BodyTokens(ts: seq<Token>) {
    forall k | 0 <= k < |ts| :: ts[k].kind != EOF && ts[k].pos.end - ts[k].pos.start == |ts[k].lexeme|
  }

  /**
   * What the loop of `ScanTokens`, started in `st` with `errs` recorded, leaves
   * behind on a source of length `n`: a panic at the end of the source, or the
   * cursor at the end with exactly one EOF token appended after the tokens of
   * `st` and the body tokens scanned since; success only without errors, and
   * every recorded error reported.
   */
  ghost predicate RunOutcome(n: int, st: ScanState, errs: seq<ScanError>, fin: ScanState, res: ScanResult) {
    && (res.Panicked? ==> res.index == n)
    && (!res.Panicked? ==>
          && fin.current == n
          && |fin.tokens| > |st.tokens|
          && fin.tokens[..|st.tokens|] == st.tokens
          && fin.tokens[|fin.tokens| - 1] == EofToken(fin.line)
          && BodyTokens(fin.tokens[..|fin.tokens| - 1]))
    && (res.Scanned? ==> errs == [] && res.tokens == fin.tokens)
    && (res.Errors? ==> |res.errs| > 0 && errs <= res.errs)
    && (errs != [] ==> !res.Scanned?)
  }

  /**
   * The loop of `ScanTokens` ends with the cursor at the end of the source, having
   * appended exactly one EOF token, after every other token, on the line after the
   * last one counted. Errors only ever accumulate: once one is recorded the scan
   * cannot succeed, and every recorded error is reported.
   */
  lemma {:induction false} RunSpec(src: seq<Byte>, st: ScanState, errs: seq<ScanError>)
    requires ValidState(src, st) && BodyTokens(st.tokens)
    ensures var (fin, res) := Run(src, st, errs);
            RunOutcome(|src|, st, errs, fin, res)
    decreases |src| - st.current
  {
    if st.current < |src| {
      var (st', out) := Step(src, st);
      StepKeepsBodyTokens(src, st);
      match out
      case Fault(i) =>
      case Error(e) =>
        assert Run(src, st, errs) == Run(src, st', errs + [e]);
        RunSpec(src, st', errs + [e]);
        var (fin, res) := Run(src, st', errs + [e]);
        RunOutcomeBack(|src|, st, st', errs, errs + [e], fin, res);
      case Continue =>
        assert Run(src, st, errs) == Run(src, st', errs);
        RunSpec(src, st', errs);
        var (fin, res) := Run(src, st', errs);
        RunOutcomeBack(|src|, st, st', errs, errs, fin, res);
    } else {
      RunAtEnd(src, st, errs);
      var fin := Run(src, st, errs).0;
      assert fin.tokens[..|fin.tokens| - 1] == st.tokens;
    }
  }

  /** An outcome of the loop from a later state, with more tokens and errors, is one from an earlier state. */
  lemma RunOutcomeBack(n: int, st: ScanState, st': ScanState, errs: seq<ScanError>, errs': seq<ScanError>,
                       fin: ScanState, res: ScanResult)
    requires |st'.tokens| >= |st.tokens| && st'.tokens[..|st.tokens|] == st.tokens
    requires errs <= errs'
    requires RunOutcome(n, st', errs', fin, res)
    ensures RunOutcome(n, st, errs, fin, res)
  {
    if !res.Panicked? {
      assert fin.tokens[..|st.tokens|] == fin.tokens[..|st'.tokens|][..|st.tokens|];
    }
  }

  /** At the end of the source the loop stops and appends the EOF token. */
  lemma RunAtEnd(src: seq<Byte>, st: ScanState, errs: seq<ScanError>)
    requires ValidState(src, st) && st.current == |src|
    ensures var tokens := st.tokens + [EofToken(st.line)];
            Run(src, st, errs) == (st.(tokens := tokens), if |errs| > 0 then Errors(errs) else Scanned(tokens))
  {
  }

  /** A step that does not fault keeps the tokens so far and adds at most a body token. */
  lemma StepKeepsBodyTokens(src: seq<Byte>, st: ScanState)
    requires ValidState(src, st) && st.current < |src| && BodyTokens(st.tokens)
    ensures var (st', out) := Step(src, st);
            !out.Fault? ==>
              && BodyTokens(st'.tokens)
              && |st'.tokens| >= |st.tokens|
              && st'.tokens[..|st.tokens|] == st.tokens
  {
    var (st', out) := Step(src, st);
    StepTokenSpansLexeme(src, st);
    if !out.Fault? && st'.tokens != st.tokens {
      assert st'.tokens == st.tokens + [st'.tokens[|st.tokens|]];
    }
  }

  /**
   * A successful scan of a whole source: the last token is the EOF token, with an
   * empty lexeme, no literal, the line after the last line counted and an empty
   * span; no other token is an EOF token, and every token's span is as long as
   * its lexeme.
   */
  lemma ScanSpec(src: seq<Byte>)
    ensures var r := Run(src, Start, []);
            && (r.1.Panicked? ==> r.1.index == |src|)
            && (r.1.Errors? ==> |r.1.errs| > 0)
            && (r.1.Scanned? ==>
                  && r.1.tokens != []
                  && r.1.tokens[|r.1.tokens| - 1] == Token(EOF, [], NilValue, Pos(r.0.line + 1, 0, 0))
                  && BodyTokens(r.1.tokens[..|r.1.tokens| - 1]))
  {
    RunSpec(src, Start, []);
  }

  // ---------------------------------------------------------------------------
  // Examples

  /** `!=` is taken as one token; the `=` after it starts the next one. */
  lemma OperatorsExample()
    ensures Scan("!==") == Scanned([
              Token(BangEqual, "!=", NilValue, Pos(0, 0, 2)),
              Token(Equal, "=", NilValue, Pos(0, 2, 3)),
              Token(EOF, "", NilValue, Pos(1, 0, 0))])
  {
    var src: seq<Byte> := "!==";
    var s1 := ScanState(2, 0, 0, [Token(BangEqual, "!=", NilValue, Pos(0, 0, 2))]);
    var s2 := s1.(current := 3, tokens := s1.tokens + [Token(Equal, "=", NilValue, Pos(0, 2, 3))]);
    assert src[0..2] == "!=" && src[2..3] == "=";
    assert PunctuationStep(src, Start.(current := 1), 0) == s1;
    assert Step(src, Start) == (s1, Continue);
    assert Step(src, s1) == (s2, Continue);
    assert Run(src, Start, []) == Run(src, s1, []) == Run(src, s2, []);
  }

  /** The identifier after a one-line comment is two lines down: the newline is counted twice. */
  lemma CommentLineExample()
    ensures Scan("// hi\nx") == Scanned([
              Token(Comment, "// hi", Str("hi"), Pos(0, 0, 5)),
              Token(Identifier, "x", NilValue, Pos(2, 0, 1)),
              Token(EOF, "", NilValue, Pos(3, 0, 0))])
  {
    var src: seq<Byte> := "// hi\nx";
    var s1 := ScanState(5, 1, 5, [Token(Comment, "// hi", Str("hi"), Pos(0, 0, 5))]);
    var s2 := s1.(current := 6, line := 2, visited := 6);
    var s3 := s2.(current := 7, tokens := s2.tokens + [Token(Identifier, "x", NilValue, Pos(2, 0, 1))]);
    CommentLineFirstStep(src, s1);
    assert Run(src, Start, []) == Run(src, s1, []);
    assert Run(src, s1, []) == Run(src, s2, []);
    CommentLineLastStep(src, s2, s3);
    assert Run(src, s2, []) == Run(src, s3, []);
  }

  /**
   * After a string that spans a newline, columns are one larger than after a plain
   * newline: `x` is the second byte of line 1 but spans columns 2 to 3, because the
   * string loop takes the newline's own offset as the start of the line. The string
   * token itself starts at column -1 of the line it ends on.
   */
  lemma StringLineStartExample()
    ensures Scan("\"\n\"x") == Scanned([
              Token(String, "\"\n\"", Str("\n"), Pos(1, -1, 2)),
              Token(Identifier, "x", NilValue, Pos(1, 2, 3)),
              Token(EOF, "", NilValue, Pos(2, 0, 0))])
  {
    var src: seq<Byte> := "\"\n\"x";
    var s1 := ScanState(3, 1, 1, [Token(String, "\"\n\"", Str("\n"), Pos(1, -1, 2))]);
    var s2 := s1.(current := 4, tokens := s1.tokens + [Token(Identifier, "x", NilValue, Pos(1, 2, 3))]);
    assert StringScan(src, 2, 1, 1) == (2, 1, 1);
    assert StringScan(src, 1, 0, 0) == (2, 1, 1);
    assert src[0..3] == "\"\n\"" && src[1..2] == "\n";
    assert StringStep(src, Start.(current := 1), 0) == (s1, Continue);
    assert Step(src, Start) == (s1, Continue);
    assert src[3..4] == "x" && "x" !in ReservedKeywords;
    assert RunEnd(src, 4, IsAlphaNumeric) == 4;
    assert WordStep(src, s1.(current := 4), 3) == s2;
    assert Step(src, s1) == (s2, Continue);
    assert Run(src, Start, []) == Run(src, s1, []) == Run(src, s2, []);
  }

  lemma CommentLineFirstStep(src: seq<Byte>, s1: ScanState)
    requires src == "// hi\nx"
    requires s1 == ScanState(5, 1, 5, [Token(Comment, "// hi", Str("hi"), Pos(0, 0, 5))])
    ensures Step(src, Start) == (s1, Continue)
  {
    assert src[0..5] == "// hi" && src[2..5] == " hi";
    assert CommentText(src[2..5]) == "hi";
    assert src[1] == '/' && Peek(src, 1) == '/';
    var t := MakeToken(src, 0, 5, 0, 0, Comment, Str(CommentText(src[2..5])));
    assert t == s1.tokens[0] && [] + [t] == [t];
    assert src[5] == '\n' && RunEnd(src, 5, NotNewline) == 5;
    assert RunEnd(src, 3, NotNewline) == 5;
    assert RunEnd(src, 1, NotNewline) == 5;
    assert CommentStep(src, Start.(current := 1), 0) == (s1, Continue);
  }

  lemma CommentLineLastStep(src: seq<Byte>, s2: ScanState, s3: ScanState)
    requires src == "// hi\nx"
    requires s2 == ScanState(6, 2, 6, [Token(Comment, "// hi", Str("hi"), Pos(0, 0, 5))])
    requires s3 == s2.(current := 7, tokens := s2.tokens + [Token(Identifier, "x", NilValue, Pos(2, 0, 1))])
    ensures Step(src, s2) == (s3, Continue)
  {
    assert src[6..7] == "x";
    assert RunEnd(src, 7, IsAlphaNumeric) == 7;
    assert "x" !in ReservedKeywords;
    assert WordStep(src, s2.(current := 7), 6) == s3;
    assert src[6] == 'x' && SingleCharKind('x') == None && OperatorKinds('x').0 == None;
  }

  /** A comment at the end of the input, an unterminated string and a number at the end all fault. */
  lemma FaultExamples()
    ensures Scan("// hi") == Panicked(5)
    ensures Scan("\"ab") == Panicked(3)
    ensures Scan("12") == Panicked(2)
    ensures Scan("1.") == Panicked(2)
  {
    var c: seq<Byte> := "// hi";
    assert RunEnd(c, 1, NotNewline) == 5;
    assert Step(c, Start).1 == Fault(5);
    var q: seq<Byte> := "\"ab";
    assert RunEnd(q, 1, NotQuote) == 3;
    assert Step(q, Start).1 == Fault(3);
    var n: seq<Byte> := "12";
    assert RunEnd(n, 1, IsDigit) == 2;
    assert Step(n, Start).1 == Fault(2);
    var f: seq<Byte> := "1.";
    assert RunEnd(f, 1, IsDigit) == 1;
    assert Step(f, Start).1 == Fault(2);
  }

  /** Scanning goes on past unexpected bytes and reports each of them. */
  lemma UnexpectedExample()
    ensures Scan("@+#") ==
              Errors([UnexpectedCharacter('@', 1, 1), UnexpectedCharacter('#', 1, 3)])
  {
    var src: seq<Byte> := "@+#";
    var s1 := Start.(current := 1);
    var s2 := ScanState(2, 0, 0, [Token(Plus, "+", NilValue, Pos(0, 1, 2))]);
    var s3 := s2.(current := 3);
    assert src[1..2] == "+";
    assert PunctuationStep(src, s1.(current := 2), 1) == s2;
    assert Step(src, Start) == (s1, Error(UnexpectedCharacter('@', 1, 1)));
    assert Step(src, s1) == (s2, Continue);
    assert Step(src, s2) == (s3, Error(UnexpectedCharacter('#', 1, 3)));
    var e1, e2 := UnexpectedCharacter('@', 1, 1), UnexpectedCharacter('#', 1, 3);
    assert [] + [e1] == [e1] && [e1] + [e2] == [e1, e2];
    assert Run(src, Start, []) == Run(src, s1, [e1]) == Run(src, s2, [e1]) == Run(src, s3, [e1, e2]);
  }
}
