/**
 * The hand-written scanner (scanner.c): one token per call over a
 * NUL-terminated character buffer, tracking the line number.
 *
 * `Scan` is the specification of one call as a function of the cursor; the
 * class `Scanner` is the imperative scanner whose `ScanToken` is proved to
 * compute it. The lemmas in module ScannerFacts state what `Scan` promises.
 */
module Scanning {
  import opened Wrappers

  /** TOKEN_TYPE, with TOKEN_CONTINUE, which get_identifier_type produces. */
  datatype TokenType =
    | LeftParen | RightParen | LeftBrace | RightBrace
    | Comma | Dot | Minus | Plus | Semicolon | Slash | Star
    | Bang | BangEqual | Eq | EqEq | Gt | Less | GtEq | LessEq
    | Ident | Str | Num
    | And | Class | Else | False | For | Fun | If | Null | Or
    | Print | Return | Super | This | True | Var | While
    | Let | Switch | Default | Case | Break | Colon | Continue
    | Error | Eof

  /**
   * Where a token's text is: a span of the source, or a static string (the
   * message of an error token, the empty text of the end-of-file token).
   */
  datatype Lexeme = InSource(start: nat, length: nat) | Static(text: string)

  datatype Token = Token(kind: TokenType, line: int, lexeme: Lexeme)

  /** The scanner's state: start of the current lexeme, read position, line. */
  datatype Cursor = Cursor(start: nat, current: nat, line: int)

  const UnexpectedCharacter := "Unexpected character."
  const UnterminatedString := "Unterminated enless string."

  /** The 22 keywords and the token type of each. */
  const Keywords: map<string, TokenType> := map[
    "and" := And, "class" := Class, "case" := Case, "continue" := Continue,
    "else" := Else, "if" := If, "null" := Null, "or" := Or, "print" := Print,
    "return" := Return, "super" := Super, "switch" := Switch, "var" := Var,
    "while" := While, "default" := Default, "break" := Break, "let" := Let,
    "false" := False, "for" := For, "fun" := Fun, "this" := This, "true" := True]

  /** The characters a lexeme stands for in `src`. */
  function Spelling(src: string, lexeme: Lexeme): string
  {
    match lexeme
    case InSource(start, length) => if start + length <= |src| then src[start..start + length] else ""
    case Static(text) => text
  }

  /** is_digit: one of the ten decimal digits. */
  predicate IsDigit(c: char): (r: bool)
  {
    '0' <= c <= '9'
  }

  /** is_alpha: a Latin letter of either case or the underscore, never a digit. */
  predicate IsAlpha(c: char): (r: bool)
  {
    ('a' <= c <= 'z') || ('A' <= c <= 'Z') || c == '_'
  }

  predicate IsWhitespace(c: char)
  {
    c == ' ' || c == '\r' || c == '\t' || c == '\n'
  }

  /** peek: the character at `i`, or the terminating '\0' past the end. */
  function Peek(src: string, i: nat): (c: char)
  {
    if i < |src| then src[i] else '\0'
  }

  /** is_at_end: the character at `i` is the terminating '\0'. */
  predicate AtEnd(src: string, i: nat): (r: bool)
  {
    Peek(src, i) == '\0'
  }

  /** peek_next: the character after `i`, or '\0' when `i` is at the end. */
  function PeekNext(src: string, i: nat): (c: char)
  {
    if AtEnd(src, i) then '\0' else Peek(src, i + 1)
  }

  /** The number of newline characters in src[i..j]. */
  function Newlines(src: string, i: nat, j: nat): nat
    requires i <= j <= |src|
    decreases j - i
  {
    if i == j then 0 else Newlines(src, i, j - 1) + if src[j - 1] == '\n' then 1 else 0
  }

  /** A stretch without newline characters holds no newlines. */
  lemma {:induction false} NoNewlines(src: string, i: nat, j: nat)
    requires i <= j <= |src|
    requires forall k :: i <= k < j ==> src[k] != '\n'
    ensures Newlines(src, i, j) == 0
    decreases j - i
  {
    if i < j {
      NoNewlines(src, i, j - 1);
    }
  }

  /** Newlines in src[i..k] split at j. */
  lemma {:induction false} NewlinesSplit(src: string, i: nat, j: nat, k: nat)
    requires i <= j <= k <= |src|
    ensures Newlines(src, i, k) == Newlines(src, i, j) + Newlines(src, j, k)
    decreases k - j
  {
    if j < k {
      NewlinesSplit(src, i, j, k - 1);
    }
  }

  /**
   * skip_whitespaces: the position after the maximal run of blanks, tabs,
   * carriage returns and newlines from `i`, and the line after counting each
   * skipped newline once.
   */
  function SkipWhitespace(src: string, i: nat, line: int): (r: (nat, int))
    requires i <= |src|
    ensures i <= r.0 <= |src|
    ensures !IsWhitespace(Peek(src, r.0))
    ensures r.1 == line + Newlines(src, i, r.0)
    decreases |src| - i
  {
    var c := Peek(src, i);
    if c == ' ' || c == '\r' || c == '\t' || c == '\n' then
      var r := SkipWhitespace(src, i + 1, if c == '\n' then line + 1 else line);
      NewlinesSplit(src, i, i + 1, r.0);
      r
    else
      (i, line)
  }

  /** The end of the maximal run of digits from `i`; the run holds no newline. */
  function DigitsEnd(src: string, i: nat): (j: nat)
    requires i <= |src|
    ensures i <= j <= |src| && Newlines(src, i, j) == 0
    ensures !IsDigit(Peek(src, j))
    decreases |src| - i
  {
    if IsDigit(Peek(src, i)) then
      var j := DigitsEnd(src, i + 1);
      NewlinesSplit(src, i, i + 1, j);
      j
    else i
  }

  /** The end of the maximal run of letters, digits and '_' from `i`; the run holds no newline. */
  function IdentEnd(src: string, i: nat): (j: nat)
    requires i <= |src|
    ensures i <= j <= |src| && Newlines(src, i, j) == 0
    ensures !IsAlpha(Peek(src, j)) && !IsDigit(Peek(src, j))
    decreases |src| - i
  {
    var c := Peek(src, i);
    if IsAlpha(c) || IsDigit(c) then
      var j := IdentEnd(src, i + 1);
      NewlinesSplit(src, i, i + 1, j);
      j
    else i
  }

  /** The first closing quote or end of input from `i`. */
  function QuoteEnd(src: string, i: nat): (j: nat)
    requires i <= |src|
    ensures i <= j <= |src|
    ensures Peek(src, j) == '"' || AtEnd(src, j)
    decreases |src| - i
  {
    if Peek(src, i) != '"' && !AtEnd(src, i) then QuoteEnd(src, i + 1) else i
  }

  /** The first newline or end of input from `i` (the end of a line comment); no newline before it. */
  function LineEnd(src: string, i: nat): (j: nat)
    requires i <= |src|
    ensures i <= j <= |src| && Newlines(src, i, j) == 0
    ensures Peek(src, j) == '\n' || AtEnd(src, j)
    decreases |src| - i
  {
    if Peek(src, i) != '\n' && !AtEnd(src, i) then
      var j := LineEnd(src, i + 1);
      NewlinesSplit(src, i, i + 1, j);
      j
    else i
  }

  /** number: the end of a number literal whose first digit ends before `i`; no newline in it. */
  function NumberEnd(src: string, i: nat): (j: nat)
    requires i <= |src|
    ensures i <= j <= |src| && Newlines(src, i, j) == 0
  {
    var e := DigitsEnd(src, i);
    if Peek(src, e) == '.' && IsDigit(PeekNext(src, e)) then
      var j := DigitsEnd(src, e + 1);
      NewlinesSplit(src, i, e, j);
      NewlinesSplit(src, e, e + 1, j);
      j
    else e
  }

  /** Every character skipped as whitespace is a blank, tab, carriage return or newline. */
  lemma {:induction false} WhitespaceRun(src: string, i: nat, line: int)
    requires i <= |src|
    ensures forall k :: i <= k < SkipWhitespace(src, i, line).0 ==> IsWhitespace(src[k])
    decreases |src| - i
  {
    var c := Peek(src, i);
    if c == ' ' || c == '\r' || c == '\t' || c == '\n' {
      WhitespaceRun(src, i + 1, if c == '\n' then line + 1 else line);
    }
  }

  /** Every character of a digit run is a digit. */
  lemma {:induction false} DigitsRun(src: string, i: nat)
    requires i <= |src|
    ensures forall k :: i <= k < DigitsEnd(src, i) ==> IsDigit(src[k])
    decreases |src| - i
  {
    if IsDigit(Peek(src, i)) {
      DigitsRun(src, i + 1);
    }
  }

  /** Every character of an identifier run is a letter, a digit or '_'. */
  lemma {:induction false} IdentRun(src: string, i: nat)
    requires i <= |src|
    ensures forall k :: i <= k < IdentEnd(src, i) ==> IsAlpha(src[k]) || IsDigit(src[k])
    decreases |src| - i
  {
    if IsAlpha(Peek(src, i)) || IsDigit(Peek(src, i)) {
      IdentRun(src, i + 1);
    }
  }

  /** No character before the closing quote is a quote or the terminator. */
  lemma {:induction false} QuoteRun(src: string, i: nat)
    requires i <= |src|
    ensures forall k :: i <= k < QuoteEnd(src, i) ==> src[k] != '"' && src[k] != '\0'
    decreases |src| - i
  {
    if Peek(src, i) != '"' && !AtEnd(src, i) {
      QuoteRun(src, i + 1);
    }
  }

  /** check_keyword: `kind` when the lexeme is exactly its first `from` characters followed by `rest`. */
  function CheckKeyword(lexeme: string, from: nat, rest: string, kind: TokenType): (r: TokenType)
  {
    if |lexeme| == from + |rest| && lexeme[from..] == rest then kind else Ident
  }

  /** get_identifier_type: the keyword decision tree on the first and second characters. */
  function IdentifierType(lexeme: string): (kind: TokenType)
    requires |lexeme| >= 1
    ensures kind != Error && kind != Eof
  {
    match lexeme[0]
    case 'a' => CheckKeyword(lexeme, 1, "nd", And)
    case 'c' =>
      if |lexeme| > 1 then
        match lexeme[1]
        case 'l' => CheckKeyword(lexeme, 2, "ass", Class)
        case 'a' => CheckKeyword(lexeme, 2, "se", Case)
        case 'o' => CheckKeyword(lexeme, 2, "ntinue", Continue)
        case _ => Ident
      else Ident
    case 'e' => CheckKeyword(lexeme, 1, "lse", Else)
    case 'i' => CheckKeyword(lexeme, 1, "f", If)
    case 'n' => CheckKeyword(lexeme, 1, "ull", Null)
    case 'o' => CheckKeyword(lexeme, 1, "r", Or)
    case 'p' => CheckKeyword(lexeme, 1, "rint", Print)
    case 'r' => CheckKeyword(lexeme, 1, "eturn", Return)
    case 's' =>
      if |lexeme| > 1 then
        match lexeme[1]
        case 'u' => CheckKeyword(lexeme, 2, "per", Super)
        case 'w' => CheckKeyword(lexeme, 2, "itch", Switch)
        case _ => Ident
      else Ident
    case 'v' => CheckKeyword(lexeme, 1, "ar", Var)
    case 'w' => CheckKeyword(lexeme, 1, "hile", While)
    case 'd' => CheckKeyword(lexeme, 1, "efault", Default)
    case 'b' => CheckKeyword(lexeme, 1, "reak", Break)
    case 'l' => CheckKeyword(lexeme, 1, "et", Let)
    case 'f' =>
      if |lexeme| > 1 then
        match lexeme[1]
        case 'a' => CheckKeyword(lexeme, 2, "lse", False)
        case 'o' => CheckKeyword(lexeme, 2, "r", For)
        case 'u' => CheckKeyword(lexeme, 2, "n", Fun)
        case _ => Ident
      else Ident
    case 't' =>
      if |lexeme| > 1 then
        match lexeme[1]
        case 'h' => CheckKeyword(lexeme, 2, "is", This)
        case 'r' => CheckKeyword(lexeme, 2, "ue", True)
        case _ => Ident
      else Ident
    case _ => Ident
  }

  /** The token type of a character that is a token on its own (the '/' of a non-comment included). */
  function SingleCharKind(c: char): Option<TokenType>
  {
    match c
    case '(' => Some(LeftParen)
    case ')' => Some(RightParen)
    case '{' => Some(LeftBrace)
    case '}' => Some(RightBrace)
    case ';' => Some(Semicolon)
    case ',' => Some(Comma)
    case '.' => Some(Dot)
    case '-' => Some(Minus)
    case '+' => Some(Plus)
    case ':' => Some(Colon)
    case '*' => Some(Star)
    case '/' => Some(Slash)
    case _ => None
  }

  /** For '!', '=', '<', '>': the one-character token type and the one with a following '='. */
  function OneOrTwoKinds(c: char): Option<(TokenType, TokenType)>
  {
    match c
    case '!' => Some((Bang, BangEqual))
    case '=' => Some((Eq, EqEq))
    case '<' => Some((Less, LessEq))
    case '>' => Some((Gt, GtEq))
    case _ => None
  }

  /** make_token: the lexeme src[start..current]. */
  function MakeToken(kind: TokenType, start: nat, current: nat, line: int): (t: Token)
    requires start <= current
  {
    Token(kind, line, InSource(start, current - start))
  }

  /** make_eof_token: the text "EOF" with length 0, so no text at all. */
  function EofToken(line: int): (t: Token)
  {
    Token(Eof, line, Static(""))
  }

  /** make_error_token: the message is the token's text. */
  function ErrorToken(msg: string, line: int): (t: Token)
  {
    Token(Error, line, Static(msg))
  }

  /** string: from the opening quote at `s` to the closing quote, or an error at end of input. */
  function ScanString(src: string, s: nat, line: int): (r: (Token, Cursor))
    requires s < |src| && src[s] == '"'
    ensures r.1.start == s < r.1.current <= |src|
  {
    var e := QuoteEnd(src, s + 1);
    var l := line + Newlines(src, s, e);
    if AtEnd(src, e) then
      (ErrorToken(UnterminatedString, l), Cursor(s, e, l))
    else
      (MakeToken(Str, s, e + 1, l), Cursor(s, e + 1, l))
  }

  /**
   * A string token spans from its opening quote through the closing one and
   * counts the newlines inside; without a closing quote, the error token.
   */
  lemma ScanStringShape(src: string, s: nat, line: int)
    requires s < |src| && src[s] == '"'
    ensures var r := ScanString(src, s, line);
      && r.1.line == line + Newlines(src, s, r.1.current) && r.0.line == r.1.line
      && (r.0.kind == Str || r.0 == ErrorToken(UnterminatedString, r.1.line))
      && (r.0.kind == Str ==> r.0.lexeme == InSource(s, r.1.current - s))
  {
    var e := QuoteEnd(src, s + 1);
    if !AtEnd(src, e) {
      NewlinesSplit(src, s, e, e + 1);
    }
  }

  /**
   * The token that starts at `p` with its first character, when that
   * character does not start a line comment.
   */
  function ScanLexeme(src: string, p: nat, line: int): (r: (Token, Cursor))
    requires p < |src| && !AtEnd(src, p) && !IsWhitespace(src[p])
    requires !(src[p] == '/' && Peek(src, p + 1) == '/')
    ensures r.1.start == p < r.1.current <= |src|
  {
    var ch := src[p];
    var q := p + 1;
    if IsDigit(ch) then
      var e := NumberEnd(src, q);
      (MakeToken(Num, p, e, line), Cursor(p, e, line))
    else if IsAlpha(ch) then
      var e := IdentEnd(src, q);
      (MakeToken(IdentifierType(src[p..e]), p, e, line), Cursor(p, e, line))
    else if OneOrTwoKinds(ch).Some? then
      var kinds := OneOrTwoKinds(ch).value;
      var e := if Peek(src, q) == '=' then q + 1 else q;
      (MakeToken(if e == q + 1 then kinds.1 else kinds.0, p, e, line), Cursor(p, e, line))
    else if ch == '"' then
      ScanString(src, p, line)
    else if SingleCharKind(ch).Some? then
      (MakeToken(SingleCharKind(ch).value, p, q, line), Cursor(p, q, line))
    else
      (ErrorToken(UnexpectedCharacter, line), Cursor(p, q, line))
  }

  /** One lexeme advances the line by the newlines it consumes (only a string can hold any). */
  lemma ScanLexemeLines(src: string, p: nat, line: int)
    requires p < |src| && !AtEnd(src, p) && !IsWhitespace(src[p])
    requires !(src[p] == '/' && Peek(src, p + 1) == '/')
    ensures var r := ScanLexeme(src, p, line);
      r.1.line == line + Newlines(src, p, r.1.current) && r.0.line == r.1.line
  {
    var ch := src[p];
    var q := p + 1;
    if IsDigit(ch) {
      NewlinesSplit(src, p, q, NumberEnd(src, q));
    } else if IsAlpha(ch) {
      NewlinesSplit(src, p, q, IdentEnd(src, q));
    } else if OneOrTwoKinds(ch).Some? {
      NewlinesSplit(src, p, q, ScanLexeme(src, p, line).1.current);
    } else if ch == '"' {
      ScanStringShape(src, p, line);
    }
  }

  /**
   * The token of one lexeme is never EOF; an error token carries a non-empty
   * message, and every other token's lexeme is the consumed text.
   */
  lemma ScanLexemeToken(src: string, p: nat, line: int)
    requires p < |src| && !AtEnd(src, p) && !IsWhitespace(src[p])
    requires !(src[p] == '/' && Peek(src, p + 1) == '/')
    ensures var r := ScanLexeme(src, p, line);
      && r.0.kind != Eof
      && (r.0.kind == Error ==> r.0.lexeme.Static? && |r.0.lexeme.text| > 0)
      && (r.0.kind != Error ==> r.0.lexeme == InSource(p, r.1.current - p))
  {
    if src[p] == '"' {
      ScanStringShape(src, p, line);
    }
  }

  /**
   * scan_token as a function of the cursor: skip whitespace, then the token
   * that starts there. A line comment is skipped up to its newline and
   * scanning starts over; as written, the source tests the wrong character
   * and never leaves the comment loop (see ScannerFacts.SlashAsWritten).
   */
  function Scan(src: string, c: Cursor): (r: (Token, Cursor))
    requires c.current <= |src|
    ensures c.current <= r.1.current <= |src|
    decreases |src| - c.current
  {
    var w := SkipWhitespace(src, c.current, c.line);
    var p, line := w.0, w.1;
    if AtEnd(src, p) then
      (EofToken(line), Cursor(c.start, p, line))
    else if src[p] == '/' && Peek(src, p + 1) == '/' then
      Scan(src, Cursor(p, LineEnd(src, p + 1), line))
    else
      ScanLexeme(src, p, line)
  }

  /** Scan advances the line count by exactly the newlines it passes over. */
  lemma {:induction false} ScanLines(src: string, c: Cursor)
    requires c.current <= |src|
    ensures Scan(src, c).1.line == c.line + Newlines(src, c.current, Scan(src, c).1.current)
    ensures Scan(src, c).0.line == Scan(src, c).1.line
    decreases |src| - c.current
  {
    var w := SkipWhitespace(src, c.current, c.line);
    var p, line := w.0, w.1;
    if AtEnd(src, p) {
      ScanAtEnd(src, c, p);
    } else if src[p] == '/' && Peek(src, p + 1) == '/' {
      ScanRestartsAfterComment(src, c, p);
      var e := LineEnd(src, p + 1);
      var r := Scan(src, Cursor(p, e, line));
      ScanLines(src, Cursor(p, e, line));
      NewlinesSplit(src, p, p + 1, e);
      NewlinesSplit(src, c.current, p, e);
      NewlinesSplit(src, c.current, e, r.1.current);
    } else {
      ScanOfLexeme(src, c, p);
      ScanLexemeLines(src, p, line);
      NewlinesSplit(src, c.current, p, ScanLexeme(src, p, line).1.current);
    }
  }

  /** Scan returns EOF only at the end of the text, with an empty lexeme. */
  lemma {:induction false} ScanEof(src: string, c: Cursor)
    requires c.current <= |src|
    ensures Scan(src, c).0.kind == Eof ==> AtEnd(src, Scan(src, c).1.current) && Scan(src, c).0.lexeme == Static("")
    decreases |src| - c.current
  {
    var w := SkipWhitespace(src, c.current, c.line);
    var p, line := w.0, w.1;
    if AtEnd(src, p) {
      ScanAtEnd(src, c, p);
    } else if src[p] == '/' && Peek(src, p + 1) == '/' {
      ScanRestartsAfterComment(src, c, p);
      ScanEof(src, Cursor(p, LineEnd(src, p + 1), line));
    } else {
      ScanOfLexeme(src, c, p);
      ScanLexemeToken(src, p, line);
    }
  }

  /** Every token but EOF starts a new, non-empty lexeme at or after the old cursor. */
  lemma {:induction false} ScanStart(src: string, c: Cursor)
    requires c.current <= |src|
    ensures var r := Scan(src, c);
      r.0.kind != Eof ==> c.current <= r.1.start < r.1.current
    decreases |src| - c.current
  {
    var w := SkipWhitespace(src, c.current, c.line);
    var p, line := w.0, w.1;
    if AtEnd(src, p) {
      ScanAtEnd(src, c, p);
    } else if src[p] == '/' && Peek(src, p + 1) == '/' {
      ScanRestartsAfterComment(src, c, p);
      ScanStart(src, Cursor(p, LineEnd(src, p + 1), line));
    } else {
      ScanOfLexeme(src, c, p);
    }
  }

  /**
   * An error token carries a non-empty message; any other token but EOF has
   * exactly the consumed text from the new start as its lexeme.
   */
  lemma {:induction false} ScanLexemeText(src: string, c: Cursor)
    requires c.current <= |src|
    ensures var r := Scan(src, c);
      && (r.0.kind == Error ==> r.0.lexeme.Static? && |r.0.lexeme.text| > 0)
      && (r.0.kind != Eof && r.0.kind != Error ==>
            r.1.start <= r.1.current && r.0.lexeme == InSource(r.1.start, r.1.current - r.1.start))
    decreases |src| - c.current
  {
    var w := SkipWhitespace(src, c.current, c.line);
    var p, line := w.0, w.1;
    if AtEnd(src, p) {
      ScanAtEnd(src, c, p);
    } else if src[p] == '/' && Peek(src, p + 1) == '/' {
      ScanRestartsAfterComment(src, c, p);
      ScanLexemeText(src, Cursor(p, LineEnd(src, p + 1), line));
    } else {
      ScanOfLexeme(src, c, p);
      ScanLexemeToken(src, p, line);
    }
  }

  /** When whitespace runs to the end of the text, Scan is the EOF token there. */
  lemma ScanAtEnd(src: string, c: Cursor, p: nat)
    requires c.current <= |src|
    requires SkipWhitespace(src, c.current, c.line).0 == p
    requires AtEnd(src, p)
    ensures Scan(src, c) == (EofToken(SkipWhitespace(src, c.current, c.line).1), Cursor(c.start, p, SkipWhitespace(src, c.current, c.line).1))
  {
  }

  /** When whitespace ends at a line comment, Scan starts over after it. */
  lemma ScanRestartsAfterComment(src: string, c: Cursor, p: nat)
    requires c.current <= |src| && p < |src|
    requires SkipWhitespace(src, c.current, c.line).0 == p
    requires !AtEnd(src, p) && src[p] == '/' && Peek(src, p + 1) == '/'
    ensures Scan(src, c) == Scan(src, Cursor(p, LineEnd(src, p + 1), SkipWhitespace(src, c.current, c.line).1))
  {
  }

  /** When whitespace ends at any other character, Scan is the lexeme that starts there. */
  lemma ScanOfLexeme(src: string, c: Cursor, p: nat)
    requires c.current <= |src| && p < |src|
    requires SkipWhitespace(src, c.current, c.line).0 == p
    requires !AtEnd(src, p) && !(src[p] == '/' && Peek(src, p + 1) == '/')
    ensures !IsWhitespace(src[p])
    ensures Scan(src, c) == ScanLexeme(src, p, SkipWhitespace(src, c.current, c.line).1)
  {
    var w := SkipWhitespace(src, c.current, c.line);
    assert Scan(src, c) == ScanLexeme(src, w.0, w.1);
  }

  /** The scanner: a cursor over a fixed source text. */
  class Scanner {
    const source: string
    var start: nat
    var current: nat
    var line: int

    ghost predicate Valid()
      reads this
    {
      start <= current <= |source|
    }

    function State(): Cursor
      reads this
    {
      Cursor(start, current, line)
    }

    /** scanner_init: both ends of the lexeme at the first character, on line 1. */
    constructor Init(text: string)
      ensures Valid() && source == text && State() == Cursor(0, 0, 1)
    {
      source := text;
      start, current, line := 0, 0, 1;
    }

    /** is_at_end: the read position is past the text or on a '\0'. */
    predicate IsAtEnd(): (r: bool)
      reads this
    {
      AtEnd(source, current)
    }

    /** peek: the character under the read position, '\0' past the text. */
    function PeekChar(): (c: char)
      reads this
    {
      Peek(source, current)
    }

    /** peek_next: the character after the read position, never past the terminator. */
    function PeekNextChar(): (c: char)
      reads this
    {
      PeekNext(source, current)
    }

    /** next_char: consumes and returns the character under the cursor. */
    method NextChar() returns (c: char)
      requires Valid() && !IsAtEnd()
      modifies this`current
      ensures Valid() && current == old(current) + 1 && c == source[old(current)]
    {
      current := current + 1;
      c := source[current - 1];
    }

    /** match: consumes the next character exactly when it is `expected`. */
    method Match(expected: char) returns (matched: bool)
      requires Valid()
      modifies this`current
      ensures Valid()
      ensures matched <==> !old(IsAtEnd()) && old(PeekChar()) == expected
      ensures current == old(current) + (if matched then 1 else 0)
    {
      if IsAtEnd() {
        return false;
      }
      if PeekChar() != expected {
        return false;
      }
      current := current + 1;
      return true;
    }

    /** make_token: the lexeme between `start` and `current`. */
    function CurrentToken(kind: TokenType): Token
      reads this
      requires Valid()
    {
      MakeToken(kind, start, current, line)
    }

    /** skip_whitespaces: consumes blanks and newlines, counting each newline once. */
    method SkipWhitespaces()
      requires Valid()
      modifies this`current, this`line
      ensures Valid()
      ensures (current, line) == SkipWhitespace(source, old(current), old(line))
    {
      while true
        invariant Valid() && old(current) <= current
        invariant SkipWhitespace(source, current, line) == SkipWhitespace(source, old(current), old(line))
        decreases |source| - current
      {
        var t := PeekChar();
        match t
        case ' ' | '\r' | '\t' =>
          var _ := NextChar();
        case '\n' =>
          line := line + 1;
          var _ := NextChar();
        case _ =>
          return;
      }
    }

    /** string: scans to the closing quote, counting the newlines inside. */
    method String() returns (token: Token)
      requires Valid() && current == start + 1 && start < |source| && source[start] == '"'
      modifies this`current, this`line
      ensures Valid()
      ensures (token, State()) == ScanString(source, start, old(line))
    {
      while PeekChar() != '"' && !IsAtEnd()
        invariant Valid() && old(current) <= current
        invariant QuoteEnd(source, current) == QuoteEnd(source, old(current))
        invariant line == old(line) + Newlines(source, old(current), current)
        decreases |source| - current
      {
        if PeekChar() == '\n' {
          line := line + 1;
        }
        var _ := NextChar();
      }
      assert current == QuoteEnd(source, start + 1);
      NewlinesSplit(source, start, start + 1, current);
      if IsAtEnd() {
        return ErrorToken(UnterminatedString, line);
      }
      var _ := NextChar();
      return CurrentToken(Str);
    }

    /** number: a digit run, then a '.' and a second digit run when a digit follows the '.'. */
    method Number() returns (token: Token)
      requires Valid() && start < current
      modifies this`current
      ensures Valid() && current == NumberEnd(source, old(current))
      ensures token == CurrentToken(Num)
    {
      while IsDigit(PeekChar())
        invariant Valid() && old(current) <= current
        invariant DigitsEnd(source, current) == DigitsEnd(source, old(current))
        decreases |source| - current
      {
        var _ := NextChar();
      }
      if PeekChar() == '.' && IsDigit(PeekNextChar()) {
        var _ := NextChar();
        ghost var fraction := current;
        while IsDigit(PeekChar())
          invariant Valid() && fraction <= current
          invariant DigitsEnd(source, current) == DigitsEnd(source, fraction)
          decreases |source| - current
        {
          var _ := NextChar();
        }
      }
      return CurrentToken(Num);
    }

    /** identifier: the maximal run of letters, digits and '_', then its keyword type. */
    method Identifier() returns (token: Token)
      requires Valid() && start < current
      modifies this`current
      ensures Valid() && current == IdentEnd(source, old(current))
      ensures token == CurrentToken(IdentifierType(source[start..current]))
    {
      while IsAlpha(PeekChar()) || IsDigit(PeekChar())
        invariant Valid() && old(current) <= current
        invariant IdentEnd(source, current) == IdentEnd(source, old(current))
        decreases |source| - current
      {
        var _ := NextChar();
      }
      return CurrentToken(IdentifierType(source[start..current]));
    }

    /**
     * scan_token. The line-comment branch is modelled as evidently intended:
     * after '/', a second '/' (the character under the cursor) starts a
     * comment that is consumed up to its newline, and scanning starts over.
     */
    method ScanToken() returns (token: Token)
      requires Valid()
      modifies this`start, this`current, this`line
      ensures Valid()
      ensures (token, State()) == Scan(source, old(State()))
    {
      while true
        invariant Valid() && Scan(source, State()) == Scan(source, old(State()))
        decreases |source| - current
      {
        var step := ScanStep();
        if step.Some? {
          return step.value;
        }
      }
    }

    /**
     * One pass of scan_token: whitespace, then either the end, a token, or a
     * line comment after which scanning starts over (no token).
     */
    method ScanStep() returns (token: Option<Token>)
      requires Valid()
      modifies this`start, this`current, this`line
      ensures Valid()
      ensures token.Some? ==> (token.value, State()) == Scan(source, old(State()))
      ensures token.None? ==> old(current) < current && Scan(source, State()) == Scan(source, old(State()))
    {
      ghost var before := State();
      SkipWhitespaces();
      if IsAtEnd() {
        ScanAtEnd(source, before, current);
        return Some(EofToken(line));
      }
      start := current;
      var c := NextChar();
      if c == '/' && PeekChar() == '/' {
        SkipLineComment();
        ScanRestartsAfterComment(source, before, start);
        return None;
      }
      ScanOfLexeme(source, before, start);
      var lexeme := LexemeToken(c);
      return Some(lexeme);
    }

    /** The comment loop of scan_token: consumes characters up to the newline or the end. */
    method SkipLineComment()
      requires Valid()
      modifies this`current
      ensures Valid() && current == LineEnd(source, old(current))
    {
      while PeekChar() != '\n' && !IsAtEnd()
        invariant Valid() && old(current) <= current
        invariant LineEnd(source, current) == LineEnd(source, old(current))
        decreases |source| - current
      {
        var _ := NextChar();
      }
    }

    /** The switch of scan_token over a first character `c` that is not a line comment. */
    method LexemeToken(c: char) returns (token: Token)
      requires Valid() && current == start + 1 && start < |source| && source[start] == c
      requires !AtEnd(source, start) && !IsWhitespace(c) && !(c == '/' && PeekChar() == '/')
      modifies this`current, this`line
      ensures Valid()
      ensures (token, State()) == ScanLexeme(source, start, old(line))
    {
      if IsDigit(c) {
        token := Number();
        return;
      }
      if IsAlpha(c) {
        token := Identifier();
        return;
      }
      match OneOrTwoKinds(c)
      case Some(kinds) =>
        var matched := Match('=');
        return CurrentToken(if matched then kinds.1 else kinds.0);
      case None =>
      if c == '"' {
        token := String();
        return;
      }
      match SingleCharKind(c)
      case Some(kind) =>
        return CurrentToken(kind);
      case None =>
        // the unexpected character is also echoed to standard output (not modelled)
        return ErrorToken(UnexpectedCharacter, line);
    }
  }
}
