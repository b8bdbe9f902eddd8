/**
 * The single-pass Pratt compiler (compiler.c): a parser object holding the
 * scanner, the current and previous tokens, a sticky error flag and panic
 * mode, that parses an expression and emits its bytecode into a chunk.
 *
 * Besides the bytes it emits, every parsing method returns, as a ghost
 * result, the expression tree it recognised. Its contract (one of the
 * predicates of ParseSteps over the snapshots before and after) ties the
 * bytes emitted to `CodeOf` of that tree, the tokens it consumed to
 * `Unparse` of the tree, and, when no error was reported, the tree to the
 * precedence discipline `WellShaped`.
 */
module Compiling {
  import opened Values
  import opened Chunks
  import opened Scanning
  import opened TokenStream
  import opened CompilerRules
  import opened ParseSteps
  import Machine

  const ExpectExpression := "Expect expression."
  const ExpectRightParen := "Expect ')' after expression."
  const ExpectEnd := "Expect end of expression."
  const TooManyConstants := "too many constants in one chunk."

  function LocationOf(token: Token): (at: Location)
    ensures at == AtEnd <==> token.kind == Eof
    ensures at == Unlocated <==> token.kind == Error
  {
    if token.kind == Eof then AtEnd
    else if token.kind == Error then Unlocated
    else AtLexeme(token.lexeme)
  }

  /** The message an error token carries (error tokens have static text). */
  function ErrorText(lexeme: Lexeme): string
  {
    match lexeme
    case Static(text) => text
    case InSource(_, _) => ""
  }

  /** What strtod reads for a token: the source from the token's first character on. */
  function StrtodInput(src: string, lexeme: Lexeme): string
  {
    match lexeme
    case InSource(start, _) => if start <= |src| then src[start..] else ""
    case Static(text) => text
  }

  /**
   * The compiler's state during one compile: the parser (current and
   * previous token, error flag, panic mode), the scanner it reads from and
   * the chunk it emits into. `messages` are the error reports written so
   * far; `consumed` is a ghost record of the token kinds that went through
   * `previous`.
   */
  class Parser {
    const scanner: Scanner
    const chunk: Chunk
    var current: Token
    var previous: Token
    var hadError: bool
    var panicMode: bool
    var messages: seq<Diagnostic>
    ghost var consumed: seq<TokenType>
    /** strtod: the number a text starts with (host floating point, left abstract). */
    const toNumber: string -> real

    /** The chunk's arrays are the ones it had, or new ones. */
    twostate predicate Grown(c: Chunk)
      reads c, c.constants
    {
      && c.constants == old(c.constants)
      && (c.code == old(c.code) || fresh(c.code))
      && (c.lines == old(c.lines) || fresh(c.lines))
      && (c.constants.values == old(c.constants.values) || fresh(c.constants.values))
    }

    ghost predicate Valid()
      reads this, scanner, chunk, chunk.constants
    {
      scanner.Valid() && chunk.Valid() && (hadError <==> panicMode)
    }

    /** Termination measure: characters left (twice) plus one while `current` is not EOF. */
    ghost function Metric(): int
      reads this, scanner
    {
      Measure(scanner.source, current.kind, scanner.State())
    }

    /** The token kinds still to be consumed: `current`, then the rest of the stream. */
    ghost function Pending(): seq<TokenType>
      reads this, scanner
      requires scanner.Valid()
    {
      PendingOf(scanner.source, current.kind, scanner.State())
    }

    ghost function Snap(): Snapshot
      reads this, scanner, chunk, chunk.code, chunk.constants, chunk.constants.values
      requires Valid()
    {
      Snapshot(Metric(), hadError, messages, chunk.Code(), chunk.Constants(), consumed, current.kind, Pending())
    }

    /**
     * The state compile starts from: a scanner at the start of `source`,
     * no error, and `chunk` as the target. The current token is a
     * placeholder that the first advance moves to `previous`.
     */
    constructor Init(source: string, chunk: Chunk, toNumber: string -> real)
      requires chunk.Valid()
      ensures Valid() && fresh(scanner) && this.chunk == chunk && this.toNumber == toNumber
      ensures scanner.source == source && scanner.State() == Cursor(0, 0, 1)
      ensures !hadError && messages == [] && consumed == []
    {
      scanner := new Scanner.Init(source);
      this.chunk := chunk;
      current := Token(Eof, 0, Static(""));
      previous := Token(Eof, 0, Static(""));
      hadError := false;
      panicMode := false;
      messages := [];
      consumed := [];
      this.toNumber := toNumber;
    }

    /**
     * error_at: in panic mode nothing is reported; otherwise one diagnostic
     * is recorded and both the error flag and panic mode are set.
     */
    method ErrorAt(token: Token, message: string)
      requires hadError <==> panicMode
      modifies this`hadError, this`panicMode, this`messages
      ensures hadError <==> panicMode
      ensures old(panicMode) ==> hadError == old(hadError) && messages == old(messages)
      ensures !old(panicMode) ==>
        hadError && messages == old(messages) + [Diagnostic(token.line, LocationOf(token), message)]
    {
      if panicMode {
        return;
      }
      panicMode := true;
      messages := messages + [Diagnostic(token.line, LocationOf(token), message)];
      hadError := true;
    }

    /** error: reports at the previous token. */
    method ErrorAtPrevious(message: string)
      requires Valid()
      modifies this`hadError, this`panicMode, this`messages
      ensures Valid() && hadError
      ensures old(panicMode) ==> messages == old(messages)
      ensures !old(panicMode) ==> messages == old(messages) + [Diagnostic(previous.line, LocationOf(previous), message)]
      ensures Follows(old(Snap()), Snap(), [], [])
    {
      ghost var s0 := Snap();
      ErrorAt(previous, message);
      FollowsDef(s0, Snap(), [], []);
    }

    /** error_at_current: reports at the current token. */
    method ErrorAtCurrent(message: string)
      requires Valid()
      modifies this`hadError, this`panicMode, this`messages
      ensures Valid() && hadError
      ensures old(panicMode) ==> messages == old(messages)
      ensures !old(panicMode) ==> messages == old(messages) + [Diagnostic(current.line, LocationOf(current), message)]
      ensures Follows(old(Snap()), Snap(), [], [])
    {
      ghost var s0 := Snap();
      ErrorAt(current, message);
      FollowsDef(s0, Snap(), [], []);
    }

    /**
     * advance: the current token becomes the previous one, and the next
     * token that is not an error token becomes current; each error token
     * met on the way is reported with its own message.
     */
    method Advance()
      requires Valid()
      modifies this`previous, this`current, this`hadError, this`panicMode, this`messages, this`consumed
      modifies scanner`start, scanner`current, scanner`line
      ensures Valid()
      ensures previous == old(current) && current.kind != Error
      ensures (current, scanner.State()) == NextToken(scanner.source, old(scanner.State()))
      ensures Progress(old(Snap()), Snap(), [], [old(current).kind])
      ensures old(current).kind != Eof ==> Follows(old(Snap()), Snap(), [], [old(current).kind])
      ensures old(current).kind != Eof ==> Metric() < old(Metric())
    {
      ghost var s0 := Snap();
      ghost var c0 := scanner.State();
      ghost var k0 := current.kind;
      previous := current;
      consumed := consumed + [previous.kind];
      SkipErrorTokens();
      ghost var s1 := Snap();
      assert s1.code == s0.code && s1.constants == s0.constants && s1.consumed == s0.consumed + [k0];
      AdvanceStream(scanner.source, k0, c0, current, scanner.State());
      AdvanceStep(s0, s1, k0);
    }

    /**
     * The scanning loop of advance: scans until a token that is not an
     * error token, reporting each error token's message at that token.
     */
    method SkipErrorTokens()
      requires Valid()
      modifies this`current, this`hadError, this`panicMode, this`messages
      modifies scanner`start, scanner`current, scanner`line
      ensures Valid() && current.kind != Error
      ensures (current, scanner.State()) == NextToken(scanner.source, old(scanner.State()))
      ensures old(hadError) ==> hadError
      ensures |old(messages)| <= |messages| && messages[..|old(messages)|] == old(messages)
      ensures |messages| == |old(messages)| + if hadError && !old(hadError) then 1 else 0
    {
      ghost var c0 := scanner.State();
      while true
        invariant scanner.Valid() && (hadError <==> panicMode)
        invariant NextToken(scanner.source, scanner.State()) == NextToken(scanner.source, c0)
        invariant old(hadError) ==> hadError
        invariant |old(messages)| <= |messages| && messages[..|old(messages)|] == old(messages)
        invariant |messages| == |old(messages)| + if hadError && !old(hadError) then 1 else 0
        decreases |scanner.source| - scanner.current
      {
        ghost var c := scanner.State();
        current := scanner.ScanToken();
        ScannedIsScan(scanner.source, c, 10);
        if current.kind != Error {
          break;
        }
        ErrorAt(current, ErrorText(current.lexeme));  // error_at_current
      }
    }

    /**
     * consume: advances over the current token when it has the expected
     * kind, and otherwise reports `message` at it.
     */
    method Consume(kind: TokenType, message: string)
      requires Valid()
      modifies this`previous, this`current, this`hadError, this`panicMode, this`messages, this`consumed
      modifies scanner`start, scanner`current, scanner`line
      ensures Valid()
      ensures old(current).kind == kind ==> previous == old(current) && current.kind != Error
      ensures old(current).kind != kind ==> hadError && current == old(current)
      ensures Progress(old(Snap()), Snap(), [], if old(current).kind == kind then [kind] else [])
      ensures kind != Eof ==> Follows(old(Snap()), Snap(), [], if old(current).kind == kind then [kind] else [])
    {
      if current.kind == kind {
        Advance();
        return;
      }
      ErrorAtCurrent(message);
    }

    /** emit_byte: appends `b` to the chunk, recorded with the previous token's line. */
    method EmitByte(b: byte)
      requires Valid()
      modifies chunk, chunk.code, chunk.lines
      ensures Valid() && chunk.constants == old(chunk.constants)
      ensures chunk.Lines() == old(chunk.Lines()) + [previous.line]
      ensures Follows(old(Snap()), Snap(), [b], [])
      ensures Grown(chunk)
    {
      ghost var s0 := Snap();
      chunk.Write(b, previous.line);
      FollowsDef(s0, Snap(), [b], []);
    }

    /** emit_bytes: two bytes in order. */
    method EmitBytes(b1: byte, b2: byte)
      requires Valid()
      modifies chunk, chunk.code, chunk.lines
      ensures Valid() && chunk.constants == old(chunk.constants)
      ensures chunk.Lines() == old(chunk.Lines()) + [previous.line, previous.line]
      ensures Follows(old(Snap()), Snap(), [b1, b2], [])
      ensures Grown(chunk)
    {
      ghost var s0 := Snap();
      EmitByte(b1);
      ghost var s1 := Snap();
      EmitByte(b2);
      EmitTrans(s0, s1, Snap(), [b1], [b2]);
      assert [b1] + [b2] == [b1, b2];
    }

    /**
     * make_constant: adds `value` to the constant pool; its index is the
     * operand, except that an index beyond 255 is reported and replaced by 0.
     */
    method MakeConstant(value: Value) returns (index: byte)
      requires Valid()
      modifies chunk.constants, chunk.constants.values, this`hadError, this`panicMode, this`messages
      ensures Valid()
      ensures chunk.Constants() == old(chunk.Constants()) + [value]
      ensures index == if |old(chunk.Constants())| > 255 then 0 else |old(chunk.Constants())| as byte
      ensures |old(chunk.Constants())| > 255 ==> hadError
      ensures |old(chunk.Constants())| > 255 && !old(panicMode) ==>
        messages == old(messages) + [Diagnostic(previous.line, LocationOf(previous), TooManyConstants)]
      ensures |old(chunk.Constants())| <= 255 ==> messages == old(messages) && hadError == old(hadError)
      ensures Follows(old(Snap()), Snap(), [], [])
      ensures Grown(chunk)
    {
      ghost var s0 := Snap();
      var constIndex := chunk.AddConstant(value);
      ghost var s1 := Snap();
      assert s1.constants[..|s0.constants|] == s0.constants;
      assert s1.code == s0.code + [];
      FollowsDef(s0, s1, [], []);
      if constIndex > 255 {
        ErrorAtPrevious(TooManyConstants);
        ghost var nothing: seq<byte> := [];
        EmitTrans(s0, s1, Snap(), nothing, nothing);
        assert nothing + nothing == nothing;
        return 0;
      }
      index := constIndex as byte;
    }

    /** emit_constant: OP_CONST followed by the new constant's index. */
    method EmitConstant(value: Value) returns (index: byte)
      requires Valid()
      modifies chunk, chunk.code, chunk.lines, chunk.constants, chunk.constants.values, this`hadError, this`panicMode, this`messages
      ensures Valid() && chunk.constants == old(chunk.constants)
      ensures chunk.Constants() == old(chunk.Constants()) + [value]
      ensures index == if |old(chunk.Constants())| > 255 then 0 else |old(chunk.Constants())| as byte
      ensures Follows(old(Snap()), Snap(), [OpConst, index], [])
      ensures Grown(chunk)
    {
      ghost var s0 := Snap();
      index := MakeConstant(value);
      ghost var s1 := Snap();
      EmitBytes(OpConst, index);
      EmitTrans(s0, s1, Snap(), [], [OpConst, index]);
      assert [] + [OpConst, index] == [OpConst, index];
    }

    /** end_compiler (through emit_op_return): appends OP_RET. */
    method EndCompiler()
      requires Valid()
      modifies chunk, chunk.code, chunk.lines
      ensures Valid() && chunk.constants == old(chunk.constants)
      ensures Follows(old(Snap()), Snap(), [OpRet], [])
      ensures Grown(chunk)
    {
      EmitByte(OpRet);
    }

    /**
     * comp_number: the previous token's number (strtod of the text from its
     * first character) becomes a constant, loaded by OP_CONST.
     */
    method Number() returns (index: byte)
      requires Valid()
      modifies chunk, chunk.code, chunk.lines, chunk.constants, chunk.constants.values, this`hadError, this`panicMode, this`messages
      ensures Valid() && chunk.constants == old(chunk.constants)
      ensures chunk.Constants() == old(chunk.Constants()) + [NumberVal(toNumber(StrtodInput(scanner.source, previous.lexeme)))]
      ensures index == if |old(chunk.Constants())| > 255 then 0 else |old(chunk.Constants())| as byte
      ensures Follows(old(Snap()), Snap(), [OpConst, index], [])
      ensures Grown(chunk)
    {
      var v := toNumber(StrtodInput(scanner.source, previous.lexeme));
      index := EmitConstant(NumberVal(v));
    }

    /**
     * unary: the operand is parsed at unary precedence, then the operator's
     * opcode is emitted (OP_NEGATE for "-"; any other operator emits nothing).
     */
    method Unary() returns (ghost operand: Expr)
      requires Valid()
      modifies this, scanner, chunk, chunk.code, chunk.lines, chunk.constants, chunk.constants.values
      ensures Valid() && Grown(chunk)
      ensures UnaryParsed(old(Snap()), Snap(), old(previous).kind, operand)
      decreases Metric(), 1
    {
      ghost var s0 := Snap();
      var operator := previous.kind;
      operand := ParsePrecedence(PrecUnary);
      ghost var s1 := Snap();
      if operator == Minus {
        EmitByte(OpNegate);
      }
      UnaryStep(s0, s1, Snap(), operator, operand);
    }

    /**
     * binary: the right operand is parsed one level above the operator's
     * precedence (so operators of equal precedence group to the left), then
     * the operator's opcode is emitted.
     */
    method Binary() returns (ghost right: Expr)
      requires Valid()
      modifies this, scanner, chunk, chunk.code, chunk.lines, chunk.constants, chunk.constants.values
      ensures Valid() && Grown(chunk)
      ensures BinaryParsed(old(Snap()), Snap(), old(previous).kind, right)
      decreases Metric(), 1
    {
      ghost var s0 := Snap();
      var operator := previous.kind;
      var rule := GetRule(operator);
      right := ParsePrecedence(rule.prec + 1);
      ghost var s1 := Snap();
      EmitOperator(operator);
      BinaryStep(s0, s1, Snap(), operator, right);
    }

    /** The switch at the end of binary: the operator's opcode, nothing for other tokens. */
    method EmitOperator(operator: TokenType)
      requires Valid()
      modifies chunk, chunk.code, chunk.lines
      ensures Valid() && Grown(chunk)
      ensures Follows(old(Snap()), Snap(), BinaryOpcode(operator), [])
    {
      var opcode := BinaryOpcode(operator);
      if opcode == [] {
        FollowsNothing(Snap());
      } else {
        EmitByte(opcode[0]);
      }
    }

    /** grouping: an expression, then a ")" that is consumed or reported missing. */
    method Grouping() returns (ghost inner: Expr, ghost closed: bool)
      requires Valid()
      modifies this, scanner, chunk, chunk.code, chunk.lines, chunk.constants, chunk.constants.values
      ensures Valid() && Grown(chunk)
      ensures GroupParsed(old(Snap()), Snap(), inner, closed)
      decreases Metric(), 2
    {
      ghost var s0 := Snap();
      inner := Expression();
      ghost var s1 := Snap();
      closed := current.kind == RightParen;
      Consume(RightParen, ExpectRightParen);
      GroupStep(s0, s1, Snap(), inner, closed);
    }

    /** expression: an expression at assignment precedence, the lowest. */
    method Expression() returns (ghost e: Expr)
      requires Valid()
      modifies this, scanner, chunk, chunk.code, chunk.lines, chunk.constants, chunk.constants.values
      ensures Valid() && Grown(chunk)
      ensures ParsedAt(old(Snap()), Snap(), e, PrecAssignment)
      decreases Metric(), 1
    {
      e := ParsePrecedence(PrecAssignment);
    }

    /**
     * parse_precedence: advances, reports "Expect expression." when the
     * token has no prefix rule, and otherwise parses its prefix expression and
     * then keeps applying infix rules while the current token's precedence is
     * at least `prec`.
     */
    method ParsePrecedence(prec: nat) returns (ghost e: Expr)
      requires Valid() && PrecAssignment <= prec <= PrecUnary
      modifies this, scanner, chunk, chunk.code, chunk.lines, chunk.constants, chunk.constants.values
      ensures Valid() && Grown(chunk)
      ensures ParsedAt(old(Snap()), Snap(), e, prec)
      decreases Metric(), 0
    {
      ghost var s0 := Snap();
      Advance();
      if GetRule(previous.kind).prefix == NoFn {
        ghost var s1 := Snap();
        ErrorAtPrevious(ExpectExpression);
        e := NoPrefix(previous.kind);
        NoPrefixStep(s0, s1, Snap(), previous.kind, prec);
        return;
      }
      e := ParsePrefix(s0);
      ClimbStart(s0, Snap(), e, prec);
      e := ParseInfixes(s0, e, prec);
    }

    /**
     * The loop of parse_precedence: while the current token binds at least
     * at `prec`, one more infix step, with the expression so far on its left.
     */
    method ParseInfixes(ghost s0: Snapshot, ghost left: Expr, prec: nat) returns (ghost e: Expr)
      requires Valid() && PrecAssignment <= prec
      requires Climbing(s0, Snap(), left, prec) && Metric() < s0.metric
      modifies this, scanner, chunk, chunk.code, chunk.lines, chunk.constants, chunk.constants.values
      ensures Valid() && Grown(chunk)
      ensures ParsedAt(s0, Snap(), e, prec)
      decreases Metric(), 4
    {
      e := left;
      while prec <= GetRule(current.kind).prec
        invariant Valid() && Grown(chunk)
        invariant Climbing(s0, Snap(), e, prec) && Metric() < s0.metric
        decreases Metric()
      {
        e := ParseInfix(s0, e, prec);
      }
      ClimbEnd(s0, Snap(), e, prec);
    }

    /**
     * The prefix step of parse_precedence: the call through the previous
     * token's (non-NULL) prefix rule. `s0` is the state before the advance
     * over that token.
     */
    method ParsePrefix(ghost s0: Snapshot) returns (ghost e: Expr)
      requires Valid() && GetRule(previous.kind).prefix != NoFn
      requires Follows(s0, Snap(), [], [previous.kind]) && Metric() < s0.metric
      modifies this, scanner, chunk, chunk.code, chunk.lines, chunk.constants, chunk.constants.values
      ensures Valid() && Grown(chunk)
      ensures PrefixParsed(s0, Snap(), e) && Metric() < s0.metric
      decreases Metric(), 3
    {
      ghost var s1 := Snap();
      var prefix := GetRule(previous.kind).prefix;
      if prefix == NumberFn {
        var index := Number();
        e := Literal(index);
        NumberStep(s0, s1, Snap(), index);
      } else if prefix == UnaryFn {
        var operand := Unary();
        e := Prefix(Minus, operand);
        NegateStep(s0, s1, Snap(), operand);
      } else {
        var inner, closed := Grouping();
        e := Group(inner, closed);
        ParenStep(s0, s1, Snap(), inner, closed);
      }
    }

    /**
     * One turn of parse_precedence's loop: advance over the operator and
     * call its infix rule. TOKEN_OR has a precedence but no infix rule; the
     * source calls the NULL pointer there, while this model reports
     * "Expect expression." at the operator and goes on.
     */
    method ParseInfix(ghost s0: Snapshot, ghost left: Expr, ghost prec: nat) returns (ghost e: Expr)
      requires Valid() && PrecAssignment <= prec <= GetRule(current.kind).prec
      requires Climbing(s0, Snap(), left, prec) && Metric() < s0.metric
      modifies this, scanner, chunk, chunk.code, chunk.lines, chunk.constants, chunk.constants.values
      ensures Valid() && Grown(chunk)
      ensures Climbing(s0, Snap(), e, prec) && Metric() < old(Metric())
      decreases Metric(), 3
    {
      ghost var s1 := Snap();
      Advance();
      ghost var s2 := Snap();
      var op := previous.kind;
      if GetRule(op).infix == NoFn {
        ErrorAtPrevious(ExpectExpression);
        e := NoInfix(left, op);
        NoInfixStep(s0, s1, s2, Snap(), left, op, prec);
      } else {
        var right := Binary();
        e := Infix(op, left, right);
        InfixStep(s0, s1, s2, Snap(), left, op, right, prec);
      }
    }
  }

  /**
   * compile: parses one expression from `source` into `chunk`, requires the
   * end of input after it, and appends OP_RET; `ok` is false exactly when an
   * error was reported. The chunk gains the expression's code; at most one
   * error is reported (panic mode is never left); and on success the
   * expression is well shaped and spans the whole token stream.
   */
  method Compile(source: string, chunk: Chunk, toNumber: string -> real)
    returns (ok: bool, ghost e: Expr, ghost errors: seq<Diagnostic>)
    requires chunk.Valid()
    modifies chunk, chunk.code, chunk.lines, chunk.constants, chunk.constants.values
    ensures chunk.Valid()
    ensures chunk.Code() == old(chunk.Code()) + CodeOf(e) + [OpRet]
    ensures |old(chunk.Constants())| <= |chunk.Constants()|
    ensures chunk.Constants()[..|old(chunk.Constants())|] == old(chunk.Constants())
    ensures ok <==> errors == []
    ensures |errors| <= 1
    ensures ok ==> Complete(e) && WellShaped(e) && Unparse(e) + [Eof] == Tokens(source, Cursor(0, 0, 1))
    ensures IndicesBelow(e, |chunk.Constants()|)
    ensures ok && old(chunk.Code()) == [] ==>
      && Machine.Halts(chunk.Code(), chunk.Constants(), 0)
      && Machine.Printed(chunk.Code(), chunk.Constants(), 0) == Machine.Literals(e, chunk.Constants())
  {
    var parser := new Parser.Init(source, chunk, toNumber);
    ghost var s0 := parser.Snap();
    parser.Advance();
    ghost var t, c := parser.current, parser.scanner.State();
    ghost var s1 := parser.Snap();
    e := parser.Expression();
    ghost var s2 := parser.Snap();
    parser.Consume(Eof, ExpectEnd);
    ghost var s3 := parser.Snap();
    parser.EndCompiler();
    CompileStep(source, s0, s1, s2, s3, parser.Snap(), e, t, c);
    ok := !parser.hadError;
    errors := parser.messages;
    ghost var code, pool := chunk.Code(), chunk.Constants();
    assert code == old(chunk.Code()) + CodeOf(e) + [OpRet];
    if ok && old(chunk.Code()) == [] {
      assert code == CodeOf(e) + [OpRet];
      Machine.CompiledRuns(e, pool);
    }
  }
}
