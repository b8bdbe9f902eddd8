/**
 * The grammar side of the Pratt compiler (compiler.c): precedence levels,
 * the rule table, and the expression trees a parse recognises, with the
 * bytecode and token kinds of each tree.
 */
module CompilerRules {
  import opened Values
  import opened Chunks
  import opened Scanning

  /* Precedence levels (PrecedenceOrder), lowest first. */
  const PrecNone: nat := 0
  const PrecAssignment: nat := 1
  const PrecOr: nat := 2
  const PrecAnd: nat := 3
  const PrecEquality: nat := 4
  const PrecComparison: nat := 5
  const PrecTerm: nat := 6
  const PrecFactor: nat := 7
  const PrecUnary: nat := 8
  const PrecCall: nat := 9
  const PrecPrimary: nat := 10

  /** The parse functions a rule can name; NoFn is the NULL entry. */
  datatype ParseFn = NoFn | GroupingFn | UnaryFn | BinaryFn | NumberFn

  datatype ParseRule = ParseRule(prefix: ParseFn, infix: ParseFn, prec: nat)

  /**
   * get_rule over the `rules` table. Token types the table does not list
   * get the zero entry {NULL, NULL, PREC_NONE}.
   */
  function GetRule(kind: TokenType): (rule: ParseRule)
    ensures rule.prefix == GroupingFn <==> kind == LeftParen
    ensures rule.prefix == UnaryFn <==> kind == Minus
    ensures rule.prefix == NumberFn <==> kind == Num
    ensures rule.prefix != BinaryFn
    ensures rule.infix == BinaryFn <==> kind == Plus || kind == Minus || kind == Star || kind == Slash
    ensures rule.infix == NoFn || rule.infix == BinaryFn
    ensures rule.prec <= PrecFactor
    ensures rule.infix == BinaryFn ==> PrecTerm <= rule.prec
    ensures PrecAssignment <= rule.prec <==> rule.infix == BinaryFn || kind == Or
  {
    match kind
    case LeftParen => ParseRule(GroupingFn, NoFn, PrecNone)
    case Minus => ParseRule(UnaryFn, BinaryFn, PrecTerm)
    case Plus => ParseRule(NoFn, BinaryFn, PrecTerm)
    case Slash => ParseRule(NoFn, BinaryFn, PrecFactor)
    case Star => ParseRule(NoFn, BinaryFn, PrecFactor)
    case Num => ParseRule(NumberFn, NoFn, PrecNone)
    case Or => ParseRule(NoFn, NoFn, PrecOr)
    case _ => ParseRule(NoFn, NoFn, PrecNone)
  }

  /**
   * What one parse recognised. NoPrefix is a token with no prefix rule
   * ("Expect expression."), NoInfix an operator that has a precedence but no
   * infix rule, Group a parenthesised expression (closed when the ")" was
   * there).
   */
  datatype Expr =
    | Literal(index: byte)
    | Prefix(op: TokenType, operand: Expr)
    | Infix(op: TokenType, left: Expr, right: Expr)
    | Group(inner: Expr, closed: bool)
    | NoPrefix(token: TokenType)
    | NoInfix(left: Expr, op: TokenType)

  /** The opcode unary() emits after its operand. */
  function UnaryOpcode(op: TokenType): seq<byte>
  {
    if op == Minus then [OpNegate] else []
  }

  /** The opcode binary() emits after both operands. */
  function BinaryOpcode(op: TokenType): seq<byte>
  {
    match op
    case Plus => [OpAdd]
    case Minus => [OpSub]
    case Star => [OpMul]
    case Slash => [OpDiv]
    case _ => []
  }

  /** The bytecode of a tree: operands first, operators after (postfix order). */
  function CodeOf(e: Expr): seq<byte>
  {
    match e
    case Literal(index) => [OpConst, index]
    case Prefix(op, x) => CodeOf(x) + UnaryOpcode(op)
    case Infix(op, l, r) => CodeOf(l) + CodeOf(r) + BinaryOpcode(op)
    case Group(x, _) => CodeOf(x)
    case NoPrefix(_) => []
    case NoInfix(l, _) => CodeOf(l)
  }

  /** The token kinds a tree was parsed from, in source order. */
  function Unparse(e: Expr): seq<TokenType>
  {
    match e
    case Literal(_) => [Num]
    case Prefix(op, x) => [op] + Unparse(x)
    case Infix(op, l, r) => Unparse(l) + [op] + Unparse(r)
    case Group(x, closed) => [LeftParen] + Unparse(x) + (if closed then [RightParen] else [])
    case NoPrefix(k) => [k]
    case NoInfix(l, k) => Unparse(l) + [k]
  }

  /** The precedence an expression binds at: its operator's, or primary. */
  function Top(e: Expr): nat
  {
    match e
    case Infix(op, _, _) => GetRule(op).prec
    case NoInfix(_, op) => GetRule(op).prec
    case _ => PrecPrimary
  }

  /**
   * The precedence discipline of the parse: a left operand binds at least as
   * tightly as its operator, a right operand strictly more tightly (so equal
   * precedence groups to the left), a unary operand at unary precedence.
   */
  ghost predicate WellShaped(e: Expr)
  {
    match e
    case Literal(_) => true
    case Prefix(_, x) => PrecUnary <= Top(x) && WellShaped(x)
    case Infix(op, l, r) =>
      GetRule(op).prec <= Top(l) && GetRule(op).prec < Top(r) && WellShaped(l) && WellShaped(r)
    case Group(x, _) => PrecAssignment <= Top(x) && WellShaped(x)
    case NoPrefix(_) => true
    case NoInfix(l, op) => GetRule(op).prec <= Top(l) && WellShaped(l)
  }

  /** A tree without syntax errors, built only from the operators the compiler handles. */
  ghost predicate Complete(e: Expr)
  {
    match e
    case Literal(_) => true
    case Prefix(op, x) => op == Minus && Complete(x)
    case Infix(op, l, r) => (op == Plus || op == Minus || op == Star || op == Slash) && Complete(l) && Complete(r)
    case Group(x, closed) => closed && Complete(x)
    case NoPrefix(_) => false
    case NoInfix(_, _) => false
  }

  /** Every literal of `e` names a constant below `n`. */
  ghost predicate IndicesBelow(e: Expr, n: nat)
  {
    match e
    case Literal(index) => (index as int) < n
    case Prefix(_, x) => IndicesBelow(x, n)
    case Infix(_, l, r) => IndicesBelow(l, n) && IndicesBelow(r, n)
    case Group(x, _) => IndicesBelow(x, n)
    case NoPrefix(_) => true
    case NoInfix(l, _) => IndicesBelow(l, n)
  }

  /** A larger constant pool still holds every literal's constant. */
  lemma {:induction false} IndicesBelowGrow(e: Expr, n: nat, m: nat)
    requires IndicesBelow(e, n) && n <= m
    ensures IndicesBelow(e, m)
  {
    match e
    case Literal(_) =>
    case Prefix(_, x) => IndicesBelowGrow(x, n, m);
    case Infix(_, l, r) => IndicesBelowGrow(l, n, m); IndicesBelowGrow(r, n, m);
    case Group(x, _) => IndicesBelowGrow(x, n, m);
    case NoPrefix(_) =>
    case NoInfix(l, _) => IndicesBelowGrow(l, n, m);
  }
}
