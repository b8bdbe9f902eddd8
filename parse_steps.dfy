/**
 * The bookkeeping of a parse (compiler.c): snapshots of the parser's
 * observable state, what a parse step promises between two snapshots, and
 * how the steps of the parsing functions compose. Each parsing method of
 * the Parser class ends with one of the step lemmas here.
 */
module ParseSteps {
  import opened Values
  import opened Chunks
  import opened Scanning
  import opened TokenStream
  import opened CompilerRules

  /** Where error_at says the error is. */
  datatype Location = AtEnd | Unlocated | AtLexeme(lexeme: Lexeme)

  /** One error report: its line, location and message. */
  datatype Diagnostic = Diagnostic(line: int, location: Location, message: string)

  /**
   * The observable state of a parse: the termination measure, the error
   * flag, the reports so far, the bytes and constants of the chunk, the
   * kinds consumed, the kind of the current token, and the kinds still to
   * come (the current one first).
   */
  datatype Snapshot = Snapshot(
    metric: int, hadError: bool, messages: seq<Diagnostic>,
    code: seq<byte>, constants: seq<Value>,
    consumed: seq<TokenType>, current: TokenType, pending: seq<TokenType>)

  /**
   * From s0 to s1 the parse emitted `code` and consumed `tokens`, never
   * went back, never cleared the error flag, and reported at most one
   * error: exactly one when the flag went up.
   */
  ghost predicate Progress(s0: Snapshot, s1: Snapshot, code: seq<byte>, tokens: seq<TokenType>, depth: nat := 4)
    decreases depth
  {
    if depth > 0 then Progress(s0, s1, code, tokens, depth - 1) else
      && s1.metric <= s0.metric
      && (s0.hadError ==> s1.hadError)
      && |s0.messages| <= |s1.messages| && s1.messages[..|s0.messages|] == s0.messages
      && |s1.messages| == |s0.messages| + (if s1.hadError && !s0.hadError then 1 else 0)
      && s1.code == s0.code + code
      && |s0.constants| <= |s1.constants| && s1.constants[..|s0.constants|] == s0.constants
      && s1.consumed == s0.consumed + tokens
  }

  lemma {:induction false} OpenProgress(s0: Snapshot, s1: Snapshot, code: seq<byte>, tokens: seq<TokenType>, depth: nat := 4)
    ensures Progress(s0, s1, code, tokens, depth) == Progress(s0, s1, code, tokens, 0)
  {
    if depth > 0 {
      OpenProgress(s0, s1, code, tokens, depth - 1);
    }
  }

  /**
   * Progress, and, while no error was reported, the token stream is read in
   * order. Defined through FollowsWithin so that the parsing methods' proofs
   * do not expand it; FollowsDef states the definition.
   */
  ghost predicate Follows(s0: Snapshot, s1: Snapshot, code: seq<byte>, tokens: seq<TokenType>)
  {
    FollowsWithin(s0, s1, code, tokens, 4)
  }

  ghost predicate FollowsWithin(s0: Snapshot, s1: Snapshot, code: seq<byte>, tokens: seq<TokenType>, depth: nat)
  {
    if depth == 0 then
      && Progress(s0, s1, code, tokens)
      && (!s1.hadError ==> s1.consumed + s1.pending == s0.consumed + s0.pending)
    else
      FollowsWithin(s0, s1, code, tokens, depth - 1)
  }

  lemma {:induction false} FollowsWithinDef(s0: Snapshot, s1: Snapshot, code: seq<byte>, tokens: seq<TokenType>, depth: nat)
    ensures FollowsWithin(s0, s1, code, tokens, depth) <==>
      Progress(s0, s1, code, tokens) && (!s1.hadError ==> s1.consumed + s1.pending == s0.consumed + s0.pending)
  {
    if depth > 0 {
      FollowsWithinDef(s0, s1, code, tokens, depth - 1);
    }
  }

  lemma FollowsDef(s0: Snapshot, s1: Snapshot, code: seq<byte>, tokens: seq<TokenType>)
    ensures Follows(s0, s1, code, tokens) <==>
      Progress(s0, s1, code, tokens) && (!s1.hadError ==> s1.consumed + s1.pending == s0.consumed + s0.pending)
  {
    FollowsWithinDef(s0, s1, code, tokens, 4);
  }

  lemma ProgressTrans(s0: Snapshot, s1: Snapshot, s2: Snapshot,
                      c1: seq<byte>, t1: seq<TokenType>, c2: seq<byte>, t2: seq<TokenType>)
    requires Progress(s0, s1, c1, t1) && Progress(s1, s2, c2, t2)
    ensures Progress(s0, s2, c1 + c2, t1 + t2)
  {
    OpenProgress(s0, s1, c1, t1);
    OpenProgress(s1, s2, c2, t2);
    OpenProgress(s0, s2, c1 + c2, t1 + t2);
    assert s2.code == s0.code + (c1 + c2);
    assert s2.consumed == s0.consumed + (t1 + t2);
    assert s2.messages[..|s0.messages|] == s1.messages[..|s1.messages|][..|s0.messages|];
    assert s2.constants[..|s0.constants|] == s1.constants[..|s1.constants|][..|s0.constants|];
  }

  /** What Follows promises about the measure, the error flag and the constant pool. */
  lemma FollowsFacts(s0: Snapshot, s1: Snapshot, code: seq<byte>, tokens: seq<TokenType>)
    requires Follows(s0, s1, code, tokens)
    ensures s1.metric <= s0.metric && (s0.hadError ==> s1.hadError)
    ensures |s0.constants| <= |s1.constants|
  {
    FollowsDef(s0, s1, code, tokens);
    OpenProgress(s0, s1, code, tokens);
  }

  lemma FollowsTrans(s0: Snapshot, s1: Snapshot, s2: Snapshot,
                     c1: seq<byte>, t1: seq<TokenType>, c2: seq<byte>, t2: seq<TokenType>)
    requires Follows(s0, s1, c1, t1) && Follows(s1, s2, c2, t2)
    ensures Follows(s0, s2, c1 + c2, t1 + t2)
  {
    FollowsDef(s0, s1, c1, t1);
    FollowsDef(s1, s2, c2, t2);
    FollowsDef(s0, s2, c1 + c2, t1 + t2);
    ProgressTrans(s0, s1, s2, c1, t1, c2, t2);
  }

  /* ---------------- What each parsing function promises ---------------- */

  /**
   * A parse at precedence `prec` (parse_precedence) went from s0 to s1 and
   * recognised `e`: it emitted CodeOf(e), consumed Unparse(e), and, when no
   * error was reported, `e` is complete and well shaped, binds at `prec` or
   * tighter, and the token after it binds more loosely than `prec`.
   */
  ghost predicate ParsedAt(s0: Snapshot, s1: Snapshot, e: Expr, prec: nat, depth: nat := 4)
    decreases depth
  {
    if depth > 0 then ParsedAt(s0, s1, e, prec, depth - 1) else
      && Follows(s0, s1, CodeOf(e), Unparse(e)) && IndicesBelow(e, |s1.constants|)
      && (!s1.hadError ==> Complete(e) && WellShaped(e) && prec <= Top(e) && GetRule(s1.current).prec < prec)
  }

  lemma {:induction false} OpenParsedAt(s0: Snapshot, s1: Snapshot, e: Expr, prec: nat, depth: nat := 4)
    ensures ParsedAt(s0, s1, e, prec, depth) == ParsedAt(s0, s1, e, prec, 0)
  {
    if depth > 0 {
      OpenParsedAt(s0, s1, e, prec, depth - 1);
    }
  }

  /** unary with operator `op` went from s0 to s1: the operand, then the operator's opcode. */
  ghost predicate UnaryParsed(s0: Snapshot, s1: Snapshot, op: TokenType, operand: Expr, depth: nat := 4)
    decreases depth
  {
    if depth > 0 then UnaryParsed(s0, s1, op, operand, depth - 1) else
      && Follows(s0, s1, CodeOf(operand) + UnaryOpcode(op), Unparse(operand)) && IndicesBelow(operand, |s1.constants|)
      && (!s1.hadError ==> Complete(operand) && WellShaped(operand) && PrecUnary <= Top(operand))
  }

  lemma {:induction false} OpenUnaryParsed(s0: Snapshot, s1: Snapshot, op: TokenType, operand: Expr, depth: nat := 4)
    ensures UnaryParsed(s0, s1, op, operand, depth) == UnaryParsed(s0, s1, op, operand, 0)
  {
    if depth > 0 {
      OpenUnaryParsed(s0, s1, op, operand, depth - 1);
    }
  }

  /**
   * binary with operator `op` went from s0 to s1: the right operand, which
   * binds strictly more tightly than `op`, then the operator's opcode; the
   * token after it binds no more tightly than `op`.
   */
  ghost predicate BinaryParsed(s0: Snapshot, s1: Snapshot, op: TokenType, right: Expr, depth: nat := 4)
    decreases depth
  {
    if depth > 0 then BinaryParsed(s0, s1, op, right, depth - 1) else
      && Follows(s0, s1, CodeOf(right) + BinaryOpcode(op), Unparse(right)) && IndicesBelow(right, |s1.constants|)
      && (!s1.hadError ==>
            && Complete(right) && WellShaped(right) && GetRule(op).prec < Top(right)
            && GetRule(s1.current).prec <= GetRule(op).prec)
  }

  lemma {:induction false} OpenBinaryParsed(s0: Snapshot, s1: Snapshot, op: TokenType, right: Expr, depth: nat := 4)
    ensures BinaryParsed(s0, s1, op, right, depth) == BinaryParsed(s0, s1, op, right, 0)
  {
    if depth > 0 {
      OpenBinaryParsed(s0, s1, op, right, depth - 1);
    }
  }

  /** grouping went from s0 to s1: an expression, then the ")" when `closed`. */
  ghost predicate GroupParsed(s0: Snapshot, s1: Snapshot, inner: Expr, closed: bool, depth: nat := 4)
    decreases depth
  {
    if depth > 0 then GroupParsed(s0, s1, inner, closed, depth - 1) else
      && Follows(s0, s1, CodeOf(inner), Unparse(inner) + if closed then [RightParen] else []) && IndicesBelow(inner, |s1.constants|)
      && (!s1.hadError ==> closed && Complete(inner) && WellShaped(inner) && PrecAssignment <= Top(inner))
  }

  lemma {:induction false} OpenGroupParsed(s0: Snapshot, s1: Snapshot, inner: Expr, closed: bool, depth: nat := 4)
    ensures GroupParsed(s0, s1, inner, closed, depth) == GroupParsed(s0, s1, inner, closed, 0)
  {
    if depth > 0 {
      OpenGroupParsed(s0, s1, inner, closed, depth - 1);
    }
  }

  /**
   * The prefix step of parse_precedence went from s0 (before the advance
   * over the prefix token) to s1 and recognised the primary expression `e`.
   */
  ghost predicate PrefixParsed(s0: Snapshot, s1: Snapshot, e: Expr, depth: nat := 4)
    decreases depth
  {
    if depth > 0 then PrefixParsed(s0, s1, e, depth - 1) else
      && Follows(s0, s1, CodeOf(e), Unparse(e)) && IndicesBelow(e, |s1.constants|)
      && (!s1.hadError ==> Complete(e) && WellShaped(e) && Top(e) == PrecPrimary)
  }

  lemma {:induction false} OpenPrefixParsed(s0: Snapshot, s1: Snapshot, e: Expr, depth: nat := 4)
    ensures PrefixParsed(s0, s1, e, depth) == PrefixParsed(s0, s1, e, 0)
  {
    if depth > 0 {
      OpenPrefixParsed(s0, s1, e, depth - 1);
    }
  }

  /**
   * The invariant of parse_precedence's loop at precedence `prec`: from s0
   * to s1 the parse recognised `e`, which binds at `prec` or tighter, and
   * the current token binds no more tightly than `e`.
   */
  ghost predicate Climbing(s0: Snapshot, s1: Snapshot, e: Expr, prec: nat, depth: nat := 4)
    decreases depth
  {
    if depth > 0 then Climbing(s0, s1, e, prec, depth - 1) else
      && Follows(s0, s1, CodeOf(e), Unparse(e)) && IndicesBelow(e, |s1.constants|)
      && (!s1.hadError ==>
            && Complete(e) && WellShaped(e) && prec <= Top(e)
            && GetRule(s1.current).prec <= Top(e))
  }

  lemma {:induction false} OpenClimbing(s0: Snapshot, s1: Snapshot, e: Expr, prec: nat, depth: nat := 4)
    ensures Climbing(s0, s1, e, prec, depth) == Climbing(s0, s1, e, prec, 0)
  {
    if depth > 0 {
      OpenClimbing(s0, s1, e, prec, depth - 1);
    }
  }

  /* ---------------- How the steps compose ---------------- */

  /**
   * One advance over `k0`: the parse moved `k0` to the consumed kinds and
   * reported at most the error tokens it passed; while `k0` is not EOF the
   * measure dropped and `k0` left the front of the pending kinds.
   */
  lemma AdvanceStep(s0: Snapshot, s1: Snapshot, k0: TokenType)
    requires s1.code == s0.code && s1.constants == s0.constants && s1.consumed == s0.consumed + [k0]
    requires s0.hadError ==> s1.hadError
    requires |s0.messages| <= |s1.messages| && s1.messages[..|s0.messages|] == s0.messages
    requires |s1.messages| == |s0.messages| + if s1.hadError && !s0.hadError then 1 else 0
    requires s1.metric <= s0.metric
    requires k0 != Eof ==> s1.metric < s0.metric && [k0] + s1.pending == s0.pending
    ensures Progress(s0, s1, [], [k0])
    ensures k0 != Eof ==> Follows(s0, s1, [], [k0])
  {
    OpenProgress(s0, s1, [], [k0]);
    assert s1.code == s0.code + [];
    assert s1.constants[..|s0.constants|] == s0.constants;
    if k0 != Eof {
      assert s1.consumed + s1.pending == s0.consumed + ([k0] + s1.pending);
      FollowsDef(s0, s1, [], [k0]);
    }
  }

  /**
   * Scanning the next token after `k0`: the measure does not grow, and when
   * `k0` is not EOF it drops and `k0` leaves the front of the pending kinds.
   */
  lemma AdvanceStream(src: string, k0: TokenType, c0: Cursor, t: Token, c1: Cursor)
    requires c0.current <= |src| && (t, c1) == NextToken(src, c0)
    ensures Measure(src, t.kind, c1) <= Measure(src, k0, c0)
    ensures k0 != Eof ==>
      [k0] + PendingOf(src, t.kind, c1) == PendingOf(src, k0, c0) && Measure(src, t.kind, c1) < Measure(src, k0, c0)
  {
    NextTokenStream(src, c0);
  }

  /** Two emits (or one and nothing) in a row. */
  lemma EmitTrans(s0: Snapshot, s1: Snapshot, s2: Snapshot, c1: seq<byte>, c2: seq<byte>)
    requires Follows(s0, s1, c1, []) && Follows(s1, s2, c2, [])
    ensures Follows(s0, s2, c1 + c2, [])
  {
    var none: seq<TokenType> := [];
    FollowsTrans(s0, s1, s2, c1, none, c2, none);
    assert none + none == none;
  }

  /** parse_precedence on a token with no prefix rule: the advance, then the report. */
  lemma NoPrefixStep(s0: Snapshot, s1: Snapshot, s2: Snapshot, k: TokenType, prec: nat)
    requires Progress(s0, s1, [], [k]) && Follows(s1, s2, [], []) && s2.hadError
    ensures ParsedAt(s0, s2, NoPrefix(k), prec)
  {
    OpenParsedAt(s0, s2, NoPrefix(k), prec);
    FollowsDef(s1, s2, [], []);
    ProgressTrans(s0, s1, s2, [], [k], [], []);
    assert [] + [] == CodeOf(NoPrefix(k)) && [k] + [] == Unparse(NoPrefix(k));
    FollowsDef(s0, s2, CodeOf(NoPrefix(k)), Unparse(NoPrefix(k)));
  }

  /** unary: the operand at unary precedence, then OP_NEGATE for "-". */
  lemma UnaryStep(s0: Snapshot, s1: Snapshot, s2: Snapshot, op: TokenType, operand: Expr)
    requires ParsedAt(s0, s1, operand, PrecUnary)
    requires if op == Minus then Follows(s1, s2, [OpNegate], []) else s2 == s1
    ensures UnaryParsed(s0, s2, op, operand)
  {
    OpenParsedAt(s0, s1, operand, PrecUnary);
    OpenUnaryParsed(s0, s2, op, operand);
    if op == Minus {
      FollowsFacts(s1, s2, [OpNegate], []);
      FollowsTrans(s0, s1, s2, CodeOf(operand), Unparse(operand), [OpNegate], []);
      IndicesBelowGrow(operand, |s1.constants|, |s2.constants|);
      assert Unparse(operand) + [] == Unparse(operand);
    } else {
      assert CodeOf(operand) + [] == CodeOf(operand);
    }
  }

  /** binary: the right operand one level above `op`, then the operator's opcode. */
  lemma BinaryStep(s0: Snapshot, s1: Snapshot, s2: Snapshot, op: TokenType, right: Expr)
    requires ParsedAt(s0, s1, right, GetRule(op).prec + 1) && s2.current == s1.current
    requires Follows(s1, s2, BinaryOpcode(op), [])
    ensures BinaryParsed(s0, s2, op, right)
  {
    OpenParsedAt(s0, s1, right, GetRule(op).prec + 1);
    OpenBinaryParsed(s0, s2, op, right);
    FollowsFacts(s1, s2, BinaryOpcode(op), []);
    FollowsTrans(s0, s1, s2, CodeOf(right), Unparse(right), BinaryOpcode(op), []);
    IndicesBelowGrow(right, |s1.constants|, |s2.constants|);
    assert Unparse(right) + [] == Unparse(right);
  }

  /** Nothing emitted and nothing consumed. */
  lemma FollowsNothing(s: Snapshot)
    ensures Follows(s, s, [], [])
  {
    OpenProgress(s, s, [], []);
    FollowsDef(s, s, [], []);
    assert s.code + [] == s.code && s.consumed + [] == s.consumed;
    assert s.messages[..|s.messages|] == s.messages && s.constants[..|s.constants|] == s.constants;
  }

  /** grouping: the inner expression, then consume(")"), which reports when it is missing. */
  lemma GroupStep(s0: Snapshot, s1: Snapshot, s2: Snapshot, inner: Expr, closed: bool)
    requires ParsedAt(s0, s1, inner, PrecAssignment)
    requires Follows(s1, s2, [], if closed then [RightParen] else []) && (!closed ==> s2.hadError)
    ensures GroupParsed(s0, s2, inner, closed)
  {
    OpenParsedAt(s0, s1, inner, PrecAssignment);
    OpenGroupParsed(s0, s2, inner, closed);
    FollowsFacts(s1, s2, [], if closed then [RightParen] else []);
    FollowsTrans(s0, s1, s2, CodeOf(inner), Unparse(inner), [], if closed then [RightParen] else []);
    IndicesBelowGrow(inner, |s1.constants|, |s2.constants|);
    assert CodeOf(inner) + [] == CodeOf(inner);
  }

  /** The prefix rule of a number: one OP_CONST with the constant's index. */
  lemma NumberStep(s0: Snapshot, s1: Snapshot, s2: Snapshot, index: byte)
    requires Follows(s0, s1, [], [Num]) && s1.metric < s0.metric
    requires Follows(s1, s2, [OpConst, index], []) && (index as int) < |s2.constants|
    ensures PrefixParsed(s0, s2, Literal(index)) && s2.metric < s0.metric
  {
    OpenPrefixParsed(s0, s2, Literal(index));
    FollowsFacts(s1, s2, [OpConst, index], []);
    FollowsTrans(s0, s1, s2, [], [Num], [OpConst, index], []);
    assert [] + [OpConst, index] == CodeOf(Literal(index)) && [Num] + [] == Unparse(Literal(index));
  }

  /** The prefix rule of "-": unary. */
  lemma NegateStep(s0: Snapshot, s1: Snapshot, s2: Snapshot, operand: Expr)
    requires Follows(s0, s1, [], [Minus]) && s1.metric < s0.metric
    requires UnaryParsed(s1, s2, Minus, operand)
    ensures PrefixParsed(s0, s2, Prefix(Minus, operand)) && s2.metric < s0.metric
  {
    OpenUnaryParsed(s1, s2, Minus, operand);
    OpenPrefixParsed(s0, s2, Prefix(Minus, operand));
    var code := CodeOf(operand) + UnaryOpcode(Minus);
    FollowsFacts(s1, s2, code, Unparse(operand));
    FollowsTrans(s0, s1, s2, [], [Minus], code, Unparse(operand));
    assert [] + code == CodeOf(Prefix(Minus, operand));
  }

  /** The prefix rule of "(": grouping. */
  lemma ParenStep(s0: Snapshot, s1: Snapshot, s2: Snapshot, inner: Expr, closed: bool)
    requires Follows(s0, s1, [], [LeftParen]) && s1.metric < s0.metric
    requires GroupParsed(s1, s2, inner, closed)
    ensures PrefixParsed(s0, s2, Group(inner, closed)) && s2.metric < s0.metric
  {
    OpenGroupParsed(s1, s2, inner, closed);
    OpenPrefixParsed(s0, s2, Group(inner, closed));
    var tokens := Unparse(inner) + if closed then [RightParen] else [];
    FollowsFacts(s1, s2, CodeOf(inner), tokens);
    FollowsTrans(s0, s1, s2, [], [LeftParen], CodeOf(inner), tokens);
    assert [] + CodeOf(inner) == CodeOf(Group(inner, closed));
    assert [LeftParen] + tokens == Unparse(Group(inner, closed));
  }

  /** A primary expression starts parse_precedence's loop at any precedence. */
  lemma ClimbStart(s0: Snapshot, s1: Snapshot, e: Expr, prec: nat)
    requires PrefixParsed(s0, s1, e) && prec <= PrecPrimary
    ensures Climbing(s0, s1, e, prec)
  {
    OpenPrefixParsed(s0, s1, e);
    OpenClimbing(s0, s1, e, prec);
  }

  /** The loop of parse_precedence stops at a token that binds more loosely than `prec`. */
  lemma ClimbEnd(s0: Snapshot, s1: Snapshot, e: Expr, prec: nat)
    requires Climbing(s0, s1, e, prec) && GetRule(s1.current).prec < prec
    ensures ParsedAt(s0, s1, e, prec)
  {
    OpenClimbing(s0, s1, e, prec);
    OpenParsedAt(s0, s1, e, prec);
  }

  /**
   * One turn of parse_precedence's loop on an operator with an infix rule:
   * the advance over `op` (which was current at s1), then binary; the
   * result is the infix node with the expression so far on its left.
   */
  lemma InfixStep(s0: Snapshot, s1: Snapshot, s2: Snapshot, s3: Snapshot,
                  left: Expr, op: TokenType, right: Expr, prec: nat)
    requires Climbing(s0, s1, left, prec) && s1.current == op
    requires prec <= GetRule(op).prec && GetRule(op).infix == BinaryFn
    requires Follows(s1, s2, [], [op]) && s2.metric < s1.metric
    requires BinaryParsed(s2, s3, op, right)
    ensures Climbing(s0, s3, Infix(op, left, right), prec) && s3.metric < s1.metric
  {
    OpenClimbing(s0, s1, left, prec);
    OpenBinaryParsed(s2, s3, op, right);
    OpenClimbing(s0, s3, Infix(op, left, right), prec);
    InfixFollows(s0, s1, s2, s3, left, op, right);
    IndicesBelowGrow(left, |s1.constants|, |s3.constants|);
  }

  /** The code and tokens of an infix node: left operand, operator, right operand. */
  lemma InfixFollows(s0: Snapshot, s1: Snapshot, s2: Snapshot, s3: Snapshot, left: Expr, op: TokenType, right: Expr)
    requires Follows(s0, s1, CodeOf(left), Unparse(left)) && Follows(s1, s2, [], [op])
    requires Follows(s2, s3, CodeOf(right) + BinaryOpcode(op), Unparse(right))
    ensures Follows(s0, s3, CodeOf(Infix(op, left, right)), Unparse(Infix(op, left, right)))
    ensures s3.metric <= s2.metric && s2.metric <= s1.metric && (s1.hadError ==> s3.hadError)
    ensures |s1.constants| <= |s3.constants|
  {
    var code := CodeOf(right) + BinaryOpcode(op);
    FollowsFacts(s2, s3, code, Unparse(right));
    FollowsFacts(s1, s2, [], [op]);
    FollowsTrans(s0, s1, s2, CodeOf(left), Unparse(left), [], [op]);
    assert CodeOf(left) + [] == CodeOf(left);
    FollowsTrans(s0, s2, s3, CodeOf(left), Unparse(left) + [op], code, Unparse(right));
    assert CodeOf(left) + code == CodeOf(Infix(op, left, right));
  }

  /**
   * One turn of parse_precedence's loop on an operator with a precedence
   * but no infix rule: the advance over `op`, then the report.
   */
  lemma NoInfixStep(s0: Snapshot, s1: Snapshot, s2: Snapshot, s3: Snapshot,
                    left: Expr, op: TokenType, prec: nat)
    requires Climbing(s0, s1, left, prec)
    requires Follows(s1, s2, [], [op]) && s2.metric < s1.metric
    requires Follows(s2, s3, [], []) && s3.hadError
    ensures Climbing(s0, s3, NoInfix(left, op), prec) && s3.metric < s1.metric
  {
    OpenClimbing(s0, s1, left, prec);
    OpenClimbing(s0, s3, NoInfix(left, op), prec);
    FollowsFacts(s1, s2, [], [op]);
    FollowsFacts(s2, s3, [], []);
    IndicesBelowGrow(left, |s1.constants|, |s3.constants|);
    FollowsTrans(s1, s2, s3, [], [op], [], []);
    FollowsTrans(s0, s1, s3, CodeOf(left), Unparse(left), [] + [], [op] + []);
    assert CodeOf(left) + ([] + []) == CodeOf(NoInfix(left, op));
    assert Unparse(left) + ([op] + []) == Unparse(NoInfix(left, op));
  }

  /**
   * compile: after the first advance (s1), an expression (s2),
   * consume(EOF) (s3) and end_compiler (s4), the chunk holds the
   * expression's code and OP_RET; at most one error was reported; and
   * without errors the expression is the whole token stream.
   */
  lemma CompileStep(src: string, s0: Snapshot, s1: Snapshot, s2: Snapshot, s3: Snapshot, s4: Snapshot,
                    e: Expr, t: Token, c: Cursor)
    requires s0.messages == [] && !s0.hadError
    requires (t, c) == NextToken(src, Cursor(0, 0, 1))
    requires Progress(s0, s1, [], [s0.current]) && s1.pending == PendingOf(src, t.kind, c)
    requires ParsedAt(s1, s2, e, PrecAssignment)
    requires s2.current == Eof ==> s2.pending == [Eof]
    requires Progress(s2, s3, [], if s2.current == Eof then [Eof] else []) && (s2.current != Eof ==> s3.hadError)
    requires Follows(s3, s4, [OpRet], [])
    ensures s4.code == s0.code + CodeOf(e) + [OpRet]
    ensures |s0.constants| <= |s4.constants| && s4.constants[..|s0.constants|] == s0.constants
    ensures |s4.messages| == if s4.hadError then 1 else 0
    ensures !s4.hadError ==> Complete(e) && WellShaped(e) && Unparse(e) + [Eof] == Tokens(src, Cursor(0, 0, 1))
    ensures IndicesBelow(e, |s4.constants|)
  {
    OpenParsedAt(s1, s2, e, PrecAssignment);
    FollowsDef(s1, s2, CodeOf(e), Unparse(e));
    FollowsDef(s3, s4, [OpRet], []);
    CompileOutput(s0, s1, s2, s3, s4, s0.current, CodeOf(e), Unparse(e), if s2.current == Eof then [Eof] else []);
    IndicesBelowGrow(e, |s2.constants|, |s4.constants|);
    if !s4.hadError {
      CompileInput(src, s1, s2, Unparse(e), t, c);
    }
  }

  /** The bytes, constants and reports of a compile. */
  lemma CompileOutput(s0: Snapshot, s1: Snapshot, s2: Snapshot, s3: Snapshot, s4: Snapshot,
                      k: TokenType, code: seq<byte>, tokens: seq<TokenType>, tail: seq<TokenType>)
    requires s0.messages == [] && !s0.hadError
    requires Progress(s0, s1, [], [k]) && Progress(s1, s2, code, tokens)
    requires Progress(s2, s3, [], tail) && Progress(s3, s4, [OpRet], [])
    ensures s4.code == s0.code + code + [OpRet]
    ensures |s0.constants| <= |s4.constants| && s4.constants[..|s0.constants|] == s0.constants
    ensures |s4.messages| == if s4.hadError then 1 else 0
    ensures s2.hadError ==> s4.hadError
    ensures |s2.constants| <= |s4.constants|
  {
    ProgressTrans(s0, s1, s2, [], [k], code, tokens);
    ProgressTrans(s2, s3, s4, [], tail, [OpRet], []);
    ProgressTrans(s0, s2, s4, [] + code, [k] + tokens, [] + [OpRet], tail + []);
    OpenProgress(s0, s4, ([] + code) + ([] + [OpRet]), ([k] + tokens) + (tail + []));
    OpenProgress(s2, s4, [] + [OpRet], tail + []);
    assert s4.code == s0.code + (([] + code) + ([] + [OpRet]));
  }

  /** The tokens of a compile: those the expression consumed, then the EOF that is current after it. */
  lemma CompileInput(src: string, s1: Snapshot, s2: Snapshot, tokens: seq<TokenType>, t: Token, c: Cursor)
    requires (t, c) == NextToken(src, Cursor(0, 0, 1)) && s1.pending == PendingOf(src, t.kind, c)
    requires s2.consumed == s1.consumed + tokens && s2.consumed + s2.pending == s1.consumed + s1.pending
    requires s2.pending == [Eof]
    ensures tokens + [Eof] == Tokens(src, Cursor(0, 0, 1))
  {
    NextTokenStream(src, Cursor(0, 0, 1));
    assert s1.pending == Tokens(src, Cursor(0, 0, 1));
    var before := s1.consumed;
    assert before + (tokens + [Eof]) == before + s1.pending;
    assert (before + (tokens + [Eof]))[|before|..] == tokens + [Eof];
    assert (before + s1.pending)[|before|..] == s1.pending;
  }
}
