/**
 * What one call of the scanner promises, stated over the specification
 * `Scanning.Scan` (which `Scanner.ScanToken` computes), and the as-written
 * line-comment branch of scan_token next to the corrected one.
 */
module ScannerFacts {
  import opened Scanning

  /** check_keyword matches only the lexeme made of its first `from` characters and `rest`. */
  lemma CheckKeywordHit(lexeme: string, from: nat, rest: string, kind: TokenType)
    requires kind != Ident && CheckKeyword(lexeme, from, rest, kind) != Ident
    ensures from <= |lexeme| && lexeme == lexeme[..from] + rest
  {
    assert lexeme == lexeme[..from] + lexeme[from..];
  }

  /** check_keyword answers `kind` or an identifier, and `kind` exactly for its one spelling. */
  lemma CheckKeywordExact(lexeme: string, from: nat, rest: string, kind: TokenType)
    requires kind != Ident
    ensures CheckKeyword(lexeme, from, rest, kind) in {kind, Ident}
    ensures CheckKeyword(lexeme, from, rest, kind) == kind <==> from <= |lexeme| && lexeme == lexeme[..from] + rest
  {
    if from <= |lexeme| && lexeme == lexeme[..from] + rest {
      assert lexeme[from..] == rest;
    } else if CheckKeyword(lexeme, from, rest, kind) == kind {
      CheckKeywordHit(lexeme, from, rest, kind);
    }
  }

  /** is_digit and is_alpha: the ten decimal digits; the Latin letters and '_', which are never digits. */
  lemma CharacterClasses(c: char)
    ensures IsDigit(c) <==> c in "0123456789"
    ensures IsAlpha(c) <==> c == '_' || c in "abcdefghijklmnopqrstuvwxyz" || c in "ABCDEFGHIJKLMNOPQRSTUVWXYZ"
    ensures IsAlpha(c) ==> !IsDigit(c)
  {
  }

  /** is_at_end: the text ends at its length or at its first '\0'. */
  lemma AtEndWithinText(src: string, i: nat)
    ensures AtEnd(src, i) <==> i >= |src| || src[i] == '\0'
  {
  }

  /** peek: nothing past the text is read; any other character is the text's own. */
  lemma PeekWithinText(src: string, i: nat)
    ensures i >= |src| ==> Peek(src, i) == '\0'
    ensures Peek(src, i) != '\0' ==> i < |src| && Peek(src, i) == src[i]
  {
  }

  /** peek_next: never looks past the end of the text. */
  lemma PeekNextWithinText(src: string, i: nat)
    ensures AtEnd(src, i) ==> PeekNext(src, i) == '\0'
    ensures PeekNext(src, i) != '\0' ==> i + 1 < |src| && src[i] != '\0' && PeekNext(src, i) == src[i + 1]
  {
  }

  /** The scanner object's peek, peek_next and is_at_end look at its own text only. */
  lemma ScannerPeeks(sc: Scanner)
    ensures sc.IsAtEnd() <==> sc.current >= |sc.source| || sc.source[sc.current] == '\0'
    ensures sc.PeekChar() != '\0' ==> sc.current < |sc.source| && sc.PeekChar() == sc.source[sc.current]
    ensures sc.IsAtEnd() ==> sc.PeekChar() == '\0' && sc.PeekNextChar() == '\0'
    ensures sc.PeekNextChar() != '\0' ==>
      sc.current + 1 < |sc.source| && sc.source[sc.current] != '\0' && sc.PeekNextChar() == sc.source[sc.current + 1]
  {
  }

  /**
   * make_token spells the source from `start` to `current`; the end-of-input
   * token spells nothing; an error token spells its message.
   */
  lemma TokenSpellings(src: string, kind: TokenType, start: nat, current: nat, line: int, msg: string)
    requires start <= current <= |src|
    ensures MakeToken(kind, start, current, line).kind == kind && MakeToken(kind, start, current, line).line == line
    ensures Spelling(src, MakeToken(kind, start, current, line).lexeme) == src[start..current]
    ensures EofToken(line).kind == Eof && Spelling(src, EofToken(line).lexeme) == ""
    ensures ErrorToken(msg, line).kind == Error && Spelling(src, ErrorToken(msg, line).lexeme) == msg
  {
  }

  /** Entries of the keyword table, "and" to "if". */
  lemma KeywordEntriesAToIf()
    ensures "and" in Keywords && Keywords["and"] == And
    ensures "class" in Keywords && Keywords["class"] == Class
    ensures "case" in Keywords && Keywords["case"] == Case
    ensures "continue" in Keywords && Keywords["continue"] == Continue
    ensures "else" in Keywords && Keywords["else"] == Else
    ensures "if" in Keywords && Keywords["if"] == If
  {
  }

  /** Entries of the keyword table, "null" to "switch". */
  lemma KeywordEntriesNullToSwitch()
    ensures "null" in Keywords && Keywords["null"] == Null
    ensures "or" in Keywords && Keywords["or"] == Or
    ensures "print" in Keywords && Keywords["print"] == Print
    ensures "return" in Keywords && Keywords["return"] == Return
    ensures "super" in Keywords && Keywords["super"] == Super
    ensures "switch" in Keywords && Keywords["switch"] == Switch
  {
  }

  /** Entries of the keyword table, "var" to "let". */
  lemma KeywordEntriesVarToLet()
    ensures "var" in Keywords && Keywords["var"] == Var
    ensures "while" in Keywords && Keywords["while"] == While
    ensures "default" in Keywords && Keywords["default"] == Default
    ensures "break" in Keywords && Keywords["break"] == Break
    ensures "let" in Keywords && Keywords["let"] == Let
  {
  }

  /** Entries of the keyword table, "false" to "true". */
  lemma KeywordEntriesFalseToTrue()
    ensures "false" in Keywords && Keywords["false"] == False
    ensures "for" in Keywords && Keywords["for"] == For
    ensures "fun" in Keywords && Keywords["fun"] == Fun
    ensures "this" in Keywords && Keywords["this"] == This
    ensures "true" in Keywords && Keywords["true"] == True
  {
  }

  /** The decision tree classifies "and" to "if" as their own types. */
  lemma KeywordTypesAToIf()
    ensures IdentifierType("and") == And
    ensures IdentifierType("class") == Class
    ensures IdentifierType("case") == Case
    ensures IdentifierType("continue") == Continue
    ensures IdentifierType("else") == Else
    ensures IdentifierType("if") == If
  {
  }

  /** The decision tree classifies "null" to "switch" as their own types. */
  lemma KeywordTypesNullToSwitch()
    ensures IdentifierType("null") == Null
    ensures IdentifierType("or") == Or
    ensures IdentifierType("print") == Print
    ensures IdentifierType("return") == Return
    ensures IdentifierType("super") == Super
    ensures IdentifierType("switch") == Switch
  {
  }

  /** The decision tree classifies "var" to "let" as their own types. */
  lemma KeywordTypesVarToLet()
    ensures IdentifierType("var") == Var
    ensures IdentifierType("while") == While
    ensures IdentifierType("default") == Default
    ensures IdentifierType("break") == Break
    ensures IdentifierType("let") == Let
  {
  }

  /** The decision tree classifies "false" to "true" as their own types. */
  lemma KeywordTypesFalseToTrue()
    ensures IdentifierType("false") == False
    ensures IdentifierType("for") == For
    ensures IdentifierType("fun") == Fun
    ensures IdentifierType("this") == This
    ensures IdentifierType("true") == True
  {
  }

  /** A lexeme the decision tree classifies as a keyword is that keyword. */
  lemma KeywordsRecognised(lexeme: string)
    requires |lexeme| >= 1
    ensures IdentifierType(lexeme) != Ident ==> lexeme in Keywords && Keywords[lexeme] == IdentifierType(lexeme)
  {
    var kind := IdentifierType(lexeme);
    if kind != Ident {
      assert lexeme[..1] == [lexeme[0]];
      if |lexeme| >= 2 {
        assert lexeme[..2] == [lexeme[0], lexeme[1]];
      }
      match lexeme[0] {
        case 'a' =>
          CheckKeywordHit(lexeme, 1, "nd", And);
          assert lexeme == "and";
          KeywordEntriesAToIf();
        case 'c' =>
          match lexeme[1] {
            case 'l' =>
              CheckKeywordHit(lexeme, 2, "ass", Class);
              assert lexeme == "class";
              KeywordEntriesAToIf();
            case 'a' =>
              CheckKeywordHit(lexeme, 2, "se", Case);
              assert lexeme == "case";
              KeywordEntriesAToIf();
            case 'o' =>
              CheckKeywordHit(lexeme, 2, "ntinue", Continue);
              assert lexeme == "continue";
              KeywordEntriesAToIf();
            case _ =>
          }
        case 'e' =>
          CheckKeywordHit(lexeme, 1, "lse", Else);
          assert lexeme == "else";
          KeywordEntriesAToIf();
        case 'i' =>
          CheckKeywordHit(lexeme, 1, "f", If);
          assert lexeme == "if";
          KeywordEntriesAToIf();
        case 'n' =>
          CheckKeywordHit(lexeme, 1, "ull", Null);
          assert lexeme == "null";
          KeywordEntriesNullToSwitch();
        case 'o' =>
          CheckKeywordHit(lexeme, 1, "r", Or);
          assert lexeme == "or";
          KeywordEntriesNullToSwitch();
        case 'p' =>
          CheckKeywordHit(lexeme, 1, "rint", Print);
          assert lexeme == "print";
          KeywordEntriesNullToSwitch();
        case 'r' =>
          CheckKeywordHit(lexeme, 1, "eturn", Return);
          assert lexeme == "return";
          KeywordEntriesNullToSwitch();
        case 's' =>
          match lexeme[1] {
            case 'u' =>
              CheckKeywordHit(lexeme, 2, "per", Super);
              assert lexeme == "super";
              KeywordEntriesNullToSwitch();
            case 'w' =>
              CheckKeywordHit(lexeme, 2, "itch", Switch);
              assert lexeme == "switch";
              KeywordEntriesNullToSwitch();
            case _ =>
          }
        case 'v' =>
          CheckKeywordHit(lexeme, 1, "ar", Var);
          assert lexeme == "var";
          KeywordEntriesVarToLet();
        case 'w' =>
          CheckKeywordHit(lexeme, 1, "hile", While);
          assert lexeme == "while";
          KeywordEntriesVarToLet();
        case 'd' =>
          CheckKeywordHit(lexeme, 1, "efault", Default);
          assert lexeme == "default";
          KeywordEntriesVarToLet();
        case 'b' =>
          CheckKeywordHit(lexeme, 1, "reak", Break);
          assert lexeme == "break";
          KeywordEntriesVarToLet();
        case 'l' =>
          CheckKeywordHit(lexeme, 1, "et", Let);
          assert lexeme == "let";
          KeywordEntriesVarToLet();
        case 'f' =>
          match lexeme[1] {
            case 'a' =>
              CheckKeywordHit(lexeme, 2, "lse", False);
              assert lexeme == "false";
              KeywordEntriesFalseToTrue();
            case 'o' =>
              CheckKeywordHit(lexeme, 2, "r", For);
              assert lexeme == "for";
              KeywordEntriesFalseToTrue();
            case 'u' =>
              CheckKeywordHit(lexeme, 2, "n", Fun);
              assert lexeme == "fun";
              KeywordEntriesFalseToTrue();
            case _ =>
          }
        case 't' =>
          match lexeme[1] {
            case 'h' =>
              CheckKeywordHit(lexeme, 2, "is", This);
              assert lexeme == "this";
              KeywordEntriesFalseToTrue();
            case 'r' =>
              CheckKeywordHit(lexeme, 2, "ue", True);
              assert lexeme == "true";
              KeywordEntriesFalseToTrue();
            case _ =>
          }
        case _ =>
      }
    }
  }

  /** Each of the 22 keywords is classified as its own token type. */
  lemma KeywordsClassified(lexeme: string)
    requires lexeme in Keywords
    ensures |lexeme| >= 1 && IdentifierType(lexeme) == Keywords[lexeme]
  {
    if lexeme == "and" {
      KeywordEntriesAToIf();
      KeywordTypesAToIf();
    } else if lexeme == "class" {
      KeywordEntriesAToIf();
      KeywordTypesAToIf();
    } else if lexeme == "case" {
      KeywordEntriesAToIf();
      KeywordTypesAToIf();
    } else if lexeme == "continue" {
      KeywordEntriesAToIf();
      KeywordTypesAToIf();
    } else if lexeme == "else" {
      KeywordEntriesAToIf();
      KeywordTypesAToIf();
    } else if lexeme == "if" {
      KeywordEntriesAToIf();
      KeywordTypesAToIf();
    } else if lexeme == "null" {
      KeywordEntriesNullToSwitch();
      KeywordTypesNullToSwitch();
    } else if lexeme == "or" {
      KeywordEntriesNullToSwitch();
      KeywordTypesNullToSwitch();
    } else if lexeme == "print" {
      KeywordEntriesNullToSwitch();
      KeywordTypesNullToSwitch();
    } else if lexeme == "return" {
      KeywordEntriesNullToSwitch();
      KeywordTypesNullToSwitch();
    } else if lexeme == "super" {
      KeywordEntriesNullToSwitch();
      KeywordTypesNullToSwitch();
    } else if lexeme == "switch" {
      KeywordEntriesNullToSwitch();
      KeywordTypesNullToSwitch();
    } else if lexeme == "var" {
      KeywordEntriesVarToLet();
      KeywordTypesVarToLet();
    } else if lexeme == "while" {
      KeywordEntriesVarToLet();
      KeywordTypesVarToLet();
    } else if lexeme == "default" {
      KeywordEntriesVarToLet();
      KeywordTypesVarToLet();
    } else if lexeme == "break" {
      KeywordEntriesVarToLet();
      KeywordTypesVarToLet();
    } else if lexeme == "let" {
      KeywordEntriesVarToLet();
      KeywordTypesVarToLet();
    } else if lexeme == "false" {
      KeywordEntriesFalseToTrue();
      KeywordTypesFalseToTrue();
    } else if lexeme == "for" {
      KeywordEntriesFalseToTrue();
      KeywordTypesFalseToTrue();
    } else if lexeme == "fun" {
      KeywordEntriesFalseToTrue();
      KeywordTypesFalseToTrue();
    } else if lexeme == "this" {
      KeywordEntriesFalseToTrue();
      KeywordTypesFalseToTrue();
    } else if lexeme == "true" {
      KeywordEntriesFalseToTrue();
      KeywordTypesFalseToTrue();
    }
  }

  /**
   * get_identifier_type: a lexeme gets a keyword type exactly when it is one
   * of the 22 keywords, and TOKEN_ID otherwise.
   */
  lemma KeywordClassification(lexeme: string)
    requires |lexeme| >= 1
    ensures IdentifierType(lexeme) == if lexeme in Keywords then Keywords[lexeme] else Ident
  {
    KeywordsRecognised(lexeme);
    if lexeme in Keywords {
      KeywordsClassified(lexeme);
    }
  }

  /**
   * identifier: a token that starts with a letter or '_' is the maximal run
   * of letters, digits and '_' from there, classified by its text.
   */
  lemma IdentifierToken(src: string, p: nat, line: int)
    requires p < |src| && IsAlpha(src[p])
    ensures var r := ScanLexeme(src, p, line);
      && r.1.current > p
      && (forall k :: p <= k < r.1.current ==> IsAlpha(src[k]) || IsDigit(src[k]))
      && !IsAlpha(Peek(src, r.1.current)) && !IsDigit(Peek(src, r.1.current))
      && r.0.kind == (if src[p..r.1.current] in Keywords then Keywords[src[p..r.1.current]] else Ident)
  {
    var e := IdentEnd(src, p + 1);
    assert ScanLexeme(src, p, line) == (MakeToken(IdentifierType(src[p..e]), p, e, line), Cursor(p, e, line));
    IdentRun(src, p + 1);
    KeywordClassification(src[p..e]);
  }

  /**
   * number: a token that starts with a digit is a maximal digit run, then a
   * '.' and a second maximal digit run only when a digit follows the '.';
   * it ends with a digit and holds at most one '.'.
   */
  lemma NumberToken(src: string, p: nat, line: int)
    requires p < |src| && IsDigit(src[p])
    ensures var r := ScanLexeme(src, p, line);
      && r.0.kind == Num
      && p < r.1.current && IsDigit(src[r.1.current - 1])
      && !IsDigit(Peek(src, r.1.current))
      && (forall k :: p <= k < r.1.current ==> IsDigit(src[k]) || src[k] == '.')
      && (forall i, j :: p <= i < j < r.1.current && src[i] == '.' ==> src[j] != '.')
  {
    var d := DigitsEnd(src, p + 1);
    var e := NumberEnd(src, p + 1);
    assert ScanLexeme(src, p, line) == (MakeToken(Num, p, e, line), Cursor(p, e, line));
    DigitsRun(src, p + 1);
    if Peek(src, d) == '.' && IsDigit(PeekNext(src, d)) {
      DigitsRun(src, d + 1);
      assert src[d] == '.' && IsDigit(src[d + 1]);
      assert forall k :: p <= k < e && k != d ==> IsDigit(src[k]);
    } else {
      assert forall k :: p <= k < e ==> IsDigit(src[k]);
    }
  }

  /**
   * '!', '=', '<' and '>' become the two-character token exactly when an '='
   * follows, which is consumed too; otherwise the one-character token.
   */
  lemma OneOrTwoCharToken(src: string, p: nat, line: int)
    requires p < |src| && OneOrTwoKinds(src[p]).Some?
    ensures var r := ScanLexeme(src, p, line);
      var kinds := OneOrTwoKinds(src[p]).value;
      if Peek(src, p + 1) == '=' then r.0.kind == kinds.1 && r.1.current == p + 2
      else r.0.kind == kinds.0 && r.1.current == p + 1
  {
  }

  /**
   * string: a string token runs from its opening quote to the first closing
   * quote inclusive and counts the newlines inside it; reaching the end of
   * the text first gives the unterminated-string error there.
   */
  lemma StringToken(src: string, p: nat, line: int)
    requires p < |src| && src[p] == '"'
    ensures var r := ScanLexeme(src, p, line);
      && r.1.line == line + Newlines(src, p, r.1.current)
      && (forall k :: p < k < r.1.current - 1 ==> src[k] != '"')
      && (r.0.kind == Str ==> r.1.current >= p + 2 && src[r.1.current - 1] == '"' && r.0.lexeme == InSource(p, r.1.current - p))
      && (r.0.kind != Str ==> r.0 == ErrorToken(UnterminatedString, r.1.line) && AtEnd(src, r.1.current))
  {
    var e := QuoteEnd(src, p + 1);
    assert ScanLexeme(src, p, line) == ScanString(src, p, line);
    ScanStringShape(src, p, line);
    QuoteRun(src, p + 1);
    assert !AtEnd(src, e) ==> src[e] == '"';
  }

  /** An unrecognised character gives "Unexpected character." after consuming it alone. */
  lemma UnexpectedCharacterToken(src: string, p: nat, line: int)
    requires p < |src| && !AtEnd(src, p) && !IsWhitespace(src[p])
    requires !IsDigit(src[p]) && !IsAlpha(src[p]) && src[p] != '"'
    requires OneOrTwoKinds(src[p]).None? && SingleCharKind(src[p]).None?
    ensures ScanLexeme(src, p, line) == (ErrorToken(UnexpectedCharacter, line), Cursor(p, p + 1, line))
  {
  }

  /** At the end of the text scan_token returns EOF without moving the cursor. */
  lemma ScanAtEndStays(src: string, c: Cursor)
    requires c.current <= |src| && AtEnd(src, c.current)
    ensures Scan(src, c) == (EofToken(c.line), c)
  {
  }

  /** Once scan_token has returned EOF, every later call returns the same EOF token. */
  lemma EofIsSticky(src: string, c: Cursor)
    requires c.current <= |src| && Scan(src, c).0.kind == Eof
    ensures Scan(src, Scan(src, c).1) == Scan(src, c)
  {
    ScanEof(src, c);
    ScanLines(src, c);
  }

  /**
   * Every token but EOF and errors is a non-empty span of the text that
   * starts at or after the old cursor, with length `current - start`.
   */
  lemma TokenSpan(src: string, c: Cursor)
    requires c.current <= |src|
    ensures var r := Scan(src, c);
      r.0.kind != Eof && r.0.kind != Error ==>
        && c.current <= r.1.start < r.1.current <= |src|
        && r.0.lexeme == InSource(r.1.start, r.1.current - r.1.start)
  {
    ScanStart(src, c);
    ScanLexemeText(src, c);
  }

  /** What the '/' branch of scan_token does as written. */
  datatype SlashOutcome = SlashToken | LoopsForever | NoReturn

  /**
   * The as-written '/' branch, with `q` just after the '/': it tests the
   * character after the next one for the second '/', then spins on a loop
   * whose body does not advance, and leaves the switch without a return
   * value when that loop does not run.
   */
  function SlashAsWritten(src: string, q: nat): (o: SlashOutcome)
    ensures o == SlashToken <==> PeekNext(src, q) != '/'
    ensures o == LoopsForever ==> !AtEnd(src, q) && Peek(src, q) != '\n'
  {
    if PeekNext(src, q) == '/' then
      if Peek(src, q) != '\n' && !AtEnd(src, q) then LoopsForever else NoReturn
    else SlashToken
  }

  /** "//x": as written the comment is scanned as a '/' token; corrected, it is skipped to EOF. */
  lemma CommentScannedAsSlash()
    ensures SlashAsWritten("//x", 1) == SlashToken
    ensures Scan("//x", Cursor(0, 0, 1)).0.kind == Eof
  {
    assert LineEnd("//x", 2) == 3 by {
      assert LineEnd("//x", 3) == 3;
    }
  }

  /** "/ /": as written the scanner never returns; corrected, it yields a '/' token. */
  lemma SlashSpaceSlashLoops()
    ensures SlashAsWritten("/ /", 1) == LoopsForever
    ensures Scan("/ /", Cursor(0, 0, 1)).0.kind == Slash
  {
  }
}
