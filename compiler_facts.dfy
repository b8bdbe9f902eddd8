/**
 * Facts about the compiler's grammar (compiler.c): the token stream the
 * parser reads, how the rule table makes binary operators group, and the
 * TOKEN_OR entry that has a precedence but no infix rule.
 */
module CompilerFacts {
  import opened Wrappers
  import opened Scanning
  import opened TokenStream
  import opened CompilerRules

  /**
   * The token stream advance() delivers ends with exactly one end-of-file
   * token and holds no error token: error tokens are reported and passed
   * over.
   */
  lemma {:induction false} TokensShape(src: string, c: Cursor)
    requires c.current <= |src|
    ensures var kinds := Tokens(src, c);
      |kinds| > 0 && kinds[|kinds| - 1] == Eof &&
      forall k :: 0 <= k < |kinds| ==> kinds[k] != Error && (kinds[k] == Eof ==> k == |kinds| - 1)
    decreases |src| - c.current
  {
    var r := NextToken(src, c);
    if r.0.kind != Eof {
      TokensShape(src, r.1);
      var rest := Tokens(src, r.1);
      assert Tokens(src, c) == [r.0.kind] + rest;
      assert forall k :: 1 <= k < |rest| + 1 ==> Tokens(src, c)[k] == rest[k - 1];
    }
  }

  /** What parse_precedence's loop calls for the operator it has just advanced over. */
  datatype InfixCall = CallsRule(fn: ParseFn) | CallsNull

  /**
   * parse_precedence's loop as written: while the current token binds at
   * `prec` or tighter, it advances and calls the token's infix rule,
   * whether or not the table has one.
   */
  function InfixCallAsWritten(prec: nat, kind: TokenType): (r: Option<InfixCall>)
    ensures r.Some? <==> prec <= GetRule(kind).prec
    ensures r == Some(CallsNull) <==> prec <= GetRule(kind).prec && GetRule(kind).infix == NoFn
  {
    if prec <= GetRule(kind).prec then
      Some(if GetRule(kind).infix == NoFn then CallsNull else CallsRule(GetRule(kind).infix))
    else None
  }

  /**
   * In any expression (parsed at PREC_ASSIGNMENT or tighter), TOKEN_OR is
   * the one token after an operand for which the loop as written calls the
   * NULL infix rule: `1 or 2` reaches the call at the level `expression`
   * parses at, and at no level does another token do so. The model's
   * Compiling.Parser.ParseInfix reports "Expect expression." there instead.
   */
  lemma OrCallsNullInfix(prec: nat, kind: TokenType)
    requires PrecAssignment <= prec
    ensures InfixCallAsWritten(PrecAssignment, Or) == Some(CallsNull)
    ensures InfixCallAsWritten(prec, kind) == Some(CallsNull) <==> kind == Or && prec <= PrecOr
  {
  }

  /**
   * Operators of equal precedence group to the left: the right operand of
   * a binary operator is never a binary operation of the same or a looser
   * precedence, so `a - b - c` is `(a - b) - c`.
   */
  lemma LeftAssociative(op1: TokenType, op2: TokenType, a: Expr, b: Expr, c: Expr)
    requires GetRule(op1).infix == BinaryFn && GetRule(op2).infix == BinaryFn
    requires GetRule(op2).prec <= GetRule(op1).prec
    ensures !WellShaped(Infix(op1, a, Infix(op2, b, c)))
    ensures WellShaped(a) && WellShaped(b) && WellShaped(c) && Top(a) >= PrecFactor && Top(b) > PrecFactor && Top(c) > PrecFactor ==>
      WellShaped(Infix(op2, Infix(op1, a, b), c))
  {
  }

  /**
   * `*` and `/` bind tighter than `+` and `-`: a term operator is never the
   * direct operand of a factor operator, so `a + b * c` is `a + (b * c)`
   * and `a * b + c` is `(a * b) + c`.
   */
  lemma FactorBindsTighter(term: TokenType, factor: TokenType, a: Expr, b: Expr)
    requires term == Plus || term == Minus
    requires factor == Star || factor == Slash
    ensures !WellShaped(Infix(factor, Infix(term, a, b), b)) && !WellShaped(Infix(factor, a, Infix(term, a, b)))
    ensures WellShaped(a) && WellShaped(b) && Top(a) == PrecPrimary && Top(b) == PrecPrimary ==>
      WellShaped(Infix(term, a, Infix(factor, a, b))) && WellShaped(Infix(term, Infix(factor, a, b), b))
  {
  }

  /**
   * Unary minus takes only a primary or another unary operand: `-a * b` is
   * `(-a) * b`, never `-(a * b)`.
   */
  lemma UnaryBindsTightest(op: TokenType, a: Expr, b: Expr)
    requires GetRule(op).infix == BinaryFn
    ensures !WellShaped(Prefix(Minus, Infix(op, a, b)))
  {
  }
}
