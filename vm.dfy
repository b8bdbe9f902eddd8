/**
 * The virtual machine (vm.c): `run` fetches and decodes the chunk's bytes
 * from the instruction pointer until OP_RET. This snapshot executes only
 * OP_CONST, which prints its constant; every other opcode is passed over.
 */
module Machine {
  import opened Values
  import opened Chunks
  import opened Scanning
  import opened CompilerRules

  datatype InterpretResult = InterpretOk | InterpretCompileError | InterpretRuntimeError

  /** The bytes `run` consumes for one instruction: the opcode, plus the operand of OP_CONST. */
  function Width(op: byte): (w: nat)
    ensures w == 1 || w == 2
    ensures w == 2 <==> op == OpConst
  {
    if op == OpConst then 2 else 1
  }

  /**
   * `run` started at `ip` reaches an OP_RET inside the code, every OP_CONST
   * on the way having its operand byte and naming an existing constant.
   */
  ghost predicate Halts(code: seq<byte>, constants: seq<Value>, ip: nat)
    decreases |code| - ip
  {
    ip < |code| &&
    (code[ip] == OpRet ||
      ((code[ip] == OpConst ==> ip + 1 < |code| && (code[ip + 1] as int) < |constants|) &&
       Halts(code, constants, ip + Width(code[ip]))))
  }

  /** The constants `run` prints from `ip` on, in order. */
  ghost function Printed(code: seq<byte>, constants: seq<Value>, ip: nat): seq<Value>
    requires Halts(code, constants, ip)
    decreases |code| - ip
  {
    if code[ip] == OpRet then []
    else if code[ip] == OpConst then [constants[code[ip + 1]]] + Printed(code, constants, ip + 2)
    else Printed(code, constants, ip + 1)
  }

  /** Where the instruction pointer rests when `run` returns: just past the OP_RET. */
  ghost function StopAt(code: seq<byte>, constants: seq<Value>, ip: nat): (r: nat)
    requires Halts(code, constants, ip)
    ensures ip < r <= |code| && code[r - 1] == OpRet
    decreases |code| - ip
  {
    if code[ip] == OpRet then ip + 1 else StopAt(code, constants, ip + Width(code[ip]))
  }

  /**
   * The VM state `run` works on: the chunk, the instruction pointer (as an
   * offset into the chunk's code) and the constants printed so far.
   */
  class VM {
    var chunk: Chunk?
    var ip: nat
    var output: seq<Value>

    constructor Init()
      ensures chunk == null && ip == 0 && output == []
    {
      chunk := null;
      ip := 0;
      output := [];
    }

    /**
     * run: READ_BYTE fetches the opcode and advances the instruction
     * pointer; OP_RET returns INTERPRET_OK, OP_CONST reads its operand with
     * READ_CONSTANT and prints that constant, any other opcode does nothing.
     */
    method Run() returns (result: InterpretResult)
      requires chunk != null && chunk.Valid() && Halts(chunk.Code(), chunk.Constants(), ip)
      modifies this`ip, this`output
      ensures result == InterpretOk
      ensures output == old(output) + Printed(chunk.Code(), chunk.Constants(), old(ip))
      ensures ip == StopAt(chunk.Code(), chunk.Constants(), old(ip))
    {
      ghost var code := chunk.Code();
      ghost var constants := chunk.Constants();
      ghost var start := ip;
      var instruction := chunk.code[ip];
      ip := ip + 1;
      while instruction != OpRet
        invariant 1 <= ip <= |code| && Halts(code, constants, ip - 1) && instruction == code[ip - 1]
        invariant old(output) + Printed(code, constants, start) == output + Printed(code, constants, ip - 1)
        invariant StopAt(code, constants, start) == StopAt(code, constants, ip - 1)
        decreases |code| - ip
      {
        if instruction == OpConst {
          var index := chunk.code[ip];
          ip := ip + 1;
          var constant := chunk.constants.values[index];
          output := output + [constant];
        }
        instruction := chunk.code[ip];
        ip := ip + 1;
      }
      result := InterpretOk;
    }

    /** vm_interpret: runs `t` from offset 0 of its code. */
    method Interpret(t: Chunk) returns (result: InterpretResult)
      requires t.Valid() && Halts(t.Code(), t.Constants(), 0)
      modifies this
      ensures chunk == t && result == InterpretOk
      ensures output == old(output) + Printed(t.Code(), t.Constants(), 0)
      ensures ip == StopAt(t.Code(), t.Constants(), 0)
    {
      chunk := t;
      ip := 0;
      result := Run();
    }
  }

  /** The constants of the literals of `e`, in source order. */
  ghost function Literals(e: Expr, constants: seq<Value>): seq<Value>
    requires IndicesBelow(e, |constants|)
  {
    match e
    case Literal(index) => [constants[index]]
    case Prefix(_, x) => Literals(x, constants)
    case Infix(_, l, r) => Literals(l, constants) + Literals(r, constants)
    case Group(x, _) => Literals(x, constants)
    case NoPrefix(_) => []
    case NoInfix(l, _) => Literals(l, constants)
  }

  /**
   * If `run` halts from `q`, it halts from `p` as well, printing `out` on
   * the way from `p` to `q` and stopping where it stops from `q`. (Reached
   * through `depth` trivial steps, so that proofs composing such facts do
   * not unfold the definitions; OpenThrough equates the two.)
   */
  ghost predicate Through(code: seq<byte>, constants: seq<Value>, p: nat, q: nat, out: seq<Value>, depth: nat := 3)
    decreases depth
  {
    if depth > 0 then Through(code, constants, p, q, out, depth - 1)
    else
      Halts(code, constants, q) ==>
        Halts(code, constants, p) &&
        Printed(code, constants, p) == out + Printed(code, constants, q) &&
        StopAt(code, constants, p) == StopAt(code, constants, q)
  }

  lemma {:induction false} OpenThrough(code: seq<byte>, constants: seq<Value>, p: nat, q: nat, out: seq<Value>, depth: nat := 3)
    ensures Through(code, constants, p, q, out, depth) == Through(code, constants, p, q, out, 0)
  {
    if depth > 0 {
      OpenThrough(code, constants, p, q, out, depth - 1);
    }
  }

  lemma ThroughTrans(code: seq<byte>, constants: seq<Value>, p: nat, q: nat, r: nat, out1: seq<Value>, out2: seq<Value>)
    requires Through(code, constants, p, q, out1) && Through(code, constants, q, r, out2)
    ensures Through(code, constants, p, r, out1 + out2)
  {
    OpenThrough(code, constants, p, q, out1);
    OpenThrough(code, constants, q, r, out2);
    OpenThrough(code, constants, p, r, out1 + out2);
  }

  /** One instruction other than OP_RET and OP_CONST is passed over without output. */
  lemma PassOver(code: seq<byte>, constants: seq<Value>, ip: nat)
    requires ip < |code| && code[ip] != OpRet && code[ip] != OpConst
    ensures Through(code, constants, ip, ip + 1, [])
  {
    OpenThrough(code, constants, ip, ip + 1, []);
  }

  /** OP_CONST prints the constant its operand names and moves on by two bytes. */
  lemma PrintConstant(code: seq<byte>, constants: seq<Value>, ip: nat)
    requires ip + 1 < |code| && code[ip] == OpConst && (code[ip + 1] as int) < |constants|
    ensures Through(code, constants, ip, ip + 2, [constants[code[ip + 1]]])
  {
    OpenThrough(code, constants, ip, ip + 2, [constants[code[ip + 1]]]);
  }

  lemma SliceSplit(code: seq<byte>, p: nat, a: seq<byte>, b: seq<byte>)
    requires p + |a| + |b| <= |code| && code[p..p + |a| + |b|] == a + b
    ensures code[p..p + |a|] == a && code[p + |a|..p + |a| + |b|] == b
  {
    assert code[p..p + |a|] == code[p..p + |a| + |b|][..|a|];
    assert code[p + |a|..p + |a| + |b|] == code[p..p + |a| + |b|][|a|..];
  }

  /** Where the parts of a negation's code sit inside it. */
  lemma PrefixSlices(op: TokenType, x: Expr, code: seq<byte>, p: nat)
    requires Complete(Prefix(op, x))
    requires p + |CodeOf(Prefix(op, x))| <= |code| && code[p..p + |CodeOf(Prefix(op, x))|] == CodeOf(Prefix(op, x))
    ensures p + |CodeOf(x)| < |code| && code[p..p + |CodeOf(x)|] == CodeOf(x)
    ensures code[p + |CodeOf(x)|] == OpNegate && p + |CodeOf(Prefix(op, x))| == p + |CodeOf(x)| + 1
  {
    SliceSplit(code, p, CodeOf(x), [OpNegate]);
  }

  /** Where the parts of a binary operation's code sit inside it. */
  lemma InfixSlices(op: TokenType, l: Expr, r: Expr, code: seq<byte>, p: nat)
    requires Complete(Infix(op, l, r))
    requires p + |CodeOf(Infix(op, l, r))| <= |code| && code[p..p + |CodeOf(Infix(op, l, r))|] == CodeOf(Infix(op, l, r))
    ensures p + |CodeOf(l)| + |CodeOf(r)| < |code|
    ensures code[p..p + |CodeOf(l)|] == CodeOf(l)
    ensures code[p + |CodeOf(l)|..p + |CodeOf(l)| + |CodeOf(r)|] == CodeOf(r)
    ensures code[p + |CodeOf(l)| + |CodeOf(r)|] != OpRet && code[p + |CodeOf(l)| + |CodeOf(r)|] != OpConst
    ensures p + |CodeOf(Infix(op, l, r))| == p + |CodeOf(l)| + |CodeOf(r)| + 1
  {
    var opcode := BinaryOpcode(op);
    assert |opcode| == 1 && opcode[0] != OpRet && opcode[0] != OpConst;
    SliceSplit(code, p, CodeOf(l) + CodeOf(r), opcode);
    SliceSplit(code, p, CodeOf(l), CodeOf(r));
  }

  /** A negation runs through once its operand does: OP_NEGATE prints nothing. */
  lemma PrefixRuns(op: TokenType, x: Expr, code: seq<byte>, p: nat, constants: seq<Value>)
    requires Complete(Prefix(op, x)) && IndicesBelow(x, |constants|)
    requires p + |CodeOf(x)| < |code| && code[p + |CodeOf(x)|] == OpNegate
    requires p + |CodeOf(Prefix(op, x))| == p + |CodeOf(x)| + 1
    requires Through(code, constants, p, p + |CodeOf(x)|, Literals(x, constants))
    ensures Through(code, constants, p, p + |CodeOf(Prefix(op, x))|, Literals(Prefix(op, x), constants))
  {
    var q := p + |CodeOf(x)|;
    PassOver(code, constants, q);
    ThroughTrans(code, constants, p, q, q + 1, Literals(x, constants), []);
    assert Literals(x, constants) + [] == Literals(Prefix(op, x), constants);
  }

  /** A binary operation runs through once both operands do: its opcode prints nothing. */
  lemma InfixRuns(op: TokenType, l: Expr, r: Expr, code: seq<byte>, p: nat, constants: seq<Value>)
    requires IndicesBelow(l, |constants|) && IndicesBelow(r, |constants|)
    requires p + |CodeOf(l)| + |CodeOf(r)| < |code|
    requires code[p + |CodeOf(l)| + |CodeOf(r)|] != OpRet && code[p + |CodeOf(l)| + |CodeOf(r)|] != OpConst
    requires p + |CodeOf(Infix(op, l, r))| == p + |CodeOf(l)| + |CodeOf(r)| + 1
    requires Through(code, constants, p, p + |CodeOf(l)|, Literals(l, constants))
    requires Through(code, constants, p + |CodeOf(l)|, p + |CodeOf(l)| + |CodeOf(r)|, Literals(r, constants))
    ensures Through(code, constants, p, p + |CodeOf(Infix(op, l, r))|, Literals(Infix(op, l, r), constants))
  {
    var m := p + |CodeOf(l)|;
    var q := m + |CodeOf(r)|;
    PassOver(code, constants, q);
    ThroughTrans(code, constants, p, m, q, Literals(l, constants), Literals(r, constants));
    ThroughTrans(code, constants, p, q, q + 1, Literals(l, constants) + Literals(r, constants), []);
    assert Literals(l, constants) + Literals(r, constants) + [] == Literals(Infix(op, l, r), constants);
  }

  /**
   * The code of a complete expression, wherever it sits in a chunk, is run
   * straight through: from its first byte `run` gets to the byte after it,
   * printing the expression's literals in source order on the way.
   */
  lemma {:induction false} RunsThrough(e: Expr, code: seq<byte>, p: nat, constants: seq<Value>)
    requires Complete(e) && IndicesBelow(e, |constants|)
    requires p + |CodeOf(e)| <= |code| && code[p..p + |CodeOf(e)|] == CodeOf(e)
    ensures Through(code, constants, p, p + |CodeOf(e)|, Literals(e, constants))
  {
    match e
    case Literal(index) =>
      assert code[p] == CodeOf(e)[0] && code[p + 1] == CodeOf(e)[1];
      PrintConstant(code, constants, p);
    case Prefix(op, x) =>
      PrefixSlices(op, x, code, p);
      RunsThrough(x, code, p, constants);
      PrefixRuns(op, x, code, p, constants);
    case Infix(op, l, r) =>
      InfixSlices(op, l, r, code, p);
      RunsThrough(l, code, p, constants);
      RunsThrough(r, code, p + |CodeOf(l)|, constants);
      InfixRuns(op, l, r, code, p, constants);
    case Group(x, _) =>
      RunsThrough(x, code, p, constants);
  }

  /**
   * The chunk compile leaves for a complete expression, its code followed by
   * OP_RET, runs to completion and prints exactly the expression's literals.
   */
  lemma CompiledRuns(e: Expr, constants: seq<Value>)
    requires Complete(e) && IndicesBelow(e, |constants|)
    ensures Halts(CodeOf(e) + [OpRet], constants, 0)
    ensures Printed(CodeOf(e) + [OpRet], constants, 0) == Literals(e, constants)
    ensures StopAt(CodeOf(e) + [OpRet], constants, 0) == |CodeOf(e)| + 1
  {
    var code := CodeOf(e) + [OpRet];
    assert code[0..|CodeOf(e)|] == CodeOf(e);
    assert code[|CodeOf(e)|] == OpRet;
    RunsThrough(e, code, 0, constants);
    OpenThrough(code, constants, 0, |CodeOf(e)|, Literals(e, constants));
  }
}
