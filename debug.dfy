/**
 * The disassembler (debug.c): lists a chunk instruction by instruction,
 * each line giving the offset, the source line and the decoded instruction.
 * The listing is modelled as a sequence of records; the printf layout of
 * each line is not part of this model.
 */
module Disassembler {
  import opened Wrappers
  import opened Values
  import opened Chunks
  import opened CompilerRules
  import opened Scanning
  import opened Machine

  /**
   * get_code_offset: how far the disassembler moves past an instruction.
   * Two bytes for OP_CONST (opcode and operand), one for every other
   * opcode, unknown ones included; the same step `run` takes.
   */
  function CodeOffset(op: byte): (w: nat)
    ensures w >= 1 && w == Width(op)
    ensures w == 2 <==> op == OpConst
  {
    if op == OpRet then 1
    else if op == OpNegate then 1
    else if op == OpAdd || op == OpSub || op == OpDiv || op == OpMul then 1
    else if op == OpConst then 2
    else if op == OpTrue || op == OpFalse || op == OpNull then 1
    else if op == OpNot then 1
    else 1
  }

  /** A decoded instruction. */
  datatype Instr =
    | Simple(name: string)
    | WithConstant(name: string, index: byte, constant: Value)
    | Unknown(opcode: byte)

  /** One line of the listing: offset, source line, instruction. */
  datatype Listing = Listing(offset: nat, line: int, instr: Instr)

  /**
   * The names of the one-byte opcodes the disassembler's switch knows.
   * OP_NULL has no case there and lists as an unknown opcode.
   */
  function OneByteName(op: byte): (r: Option<string>)
    ensures r.Some? ==> op != OpRet && op != OpConst && op != OpNull
  {
    if op == OpAdd then Some("OP_ADD")
    else if op == OpMul then Some("OP_MUL")
    else if op == OpDiv then Some("OP_DIV")
    else if op == OpSub then Some("OP_SUB")
    else if op == OpNegate then Some("OP_NEGATE")
    else if op == OpNot then Some("OP_NOT")
    else if op == OpEqual then Some("OP_EQUAL")
    else if op == OpLess then Some("OP_LESS")
    else if op == OpGreater then Some("OP_GREATER")
    else if op == OpFalse then Some("OP_FALSE")
    else if op == OpTrue then Some("OP_TRUE")
    else None
  }

  /** The operand byte after `offset` exists and names an existing constant. */
  predicate OperandOk(code: seq<byte>, constants: seq<Value>, offset: nat)
  {
    offset + 1 < |code| && (code[offset + 1] as int) < |constants|
  }

  /**
   * disasm_chunk_code with disasm_constant_instr used for OP_CONST only:
   * OP_RET and the one-byte opcodes are listed by name, OP_CONST with its
   * operand and the constant it names, anything else as unknown. The
   * operand read of OP_CONST is unchecked in the source, so a present
   * operand is required of the chunk.
   */
  function DisasmInstr(code: seq<byte>, lines: seq<int>, constants: seq<Value>, offset: nat): (r: Listing)
    requires |lines| == |code| && offset < |code|
    requires code[offset] == OpConst ==> OperandOk(code, constants, offset)
    ensures r.offset == offset && r.line == lines[offset]
    ensures r.instr.WithConstant? <==> code[offset] == OpConst
    ensures r.instr.WithConstant? ==>
      r.instr.index == code[offset + 1] && r.instr.constant == constants[code[offset + 1]]
    ensures r.instr.Unknown? <==> code[offset] != OpRet && code[offset] != OpConst && OneByteName(code[offset]).None?
    ensures r.instr.Unknown? ==> r.instr.opcode == code[offset]
  {
    var op := code[offset];
    var instr :=
      if op == OpRet then Simple("OP_RET")
      else if op == OpConst then WithConstant("OP_CONST", code[offset + 1], constants[code[offset + 1]])
      else if OneByteName(op).Some? then Simple(OneByteName(op).value)
      else Unknown(op);
    Listing(offset, lines[offset], instr)
  }

  /** What an instruction decoding as written comes to. */
  datatype Decoded =
    | Listed(entry: Listing)
    | ReadsPastCode
    | ReadsPastConstants(index: byte)

  /**
   * disasm_chunk_code as written: every one-byte opcode the switch knows is
   * also decoded by disasm_constant_instr, which takes the next byte as a
   * constant index and reads the constant pool with it.
   */
  function DisasmInstrAsWritten(code: seq<byte>, lines: seq<int>, constants: seq<Value>, offset: nat): (r: Decoded)
    requires |lines| == |code| && offset < |code|
    ensures r.ReadsPastCode? ==> offset + 1 == |code| && code[offset] != OpRet && code[offset] != OpNull
    ensures r.ReadsPastConstants? ==> offset + 1 < |code| && r.index == code[offset + 1] && (r.index as int) >= |constants|
    ensures r.Listed? && (code[offset] == OpConst || OneByteName(code[offset]).Some?) ==>
      OperandOk(code, constants, offset) && r.entry.instr.WithConstant? &&
      r.entry.instr.index == code[offset + 1] && r.entry.instr.constant == constants[code[offset + 1]]
  {
    var op := code[offset];
    if op == OpRet then Listed(Listing(offset, lines[offset], Simple("OP_RET")))
    else if op == OpConst || OneByteName(op).Some? then
      var name := if op == OpConst then "OP_CONST" else OneByteName(op).value;
      if offset + 1 >= |code| then ReadsPastCode
      else if (code[offset + 1] as int) >= |constants| then ReadsPastConstants(code[offset + 1])
      else Listed(Listing(offset, lines[offset], WithConstant(name, code[offset + 1], constants[code[offset + 1]])))
    else Listed(Listing(offset, lines[offset], Unknown(op)))
  }

  /** Where the two decodings agree: OP_RET, OP_CONST with its operand, and unknown opcodes. */
  lemma AsWrittenAgrees(code: seq<byte>, lines: seq<int>, constants: seq<Value>, offset: nat)
    requires |lines| == |code| && offset < |code|
    requires code[offset] == OpConst ==> OperandOk(code, constants, offset)
    requires OneByteName(code[offset]).None?
    ensures DisasmInstrAsWritten(code, lines, constants, offset) == Listed(DisasmInstr(code, lines, constants, offset))
  {
  }

  /**
   * The as-written decoding lists every one-byte opcode the switch knows
   * with an operand it does not have, or reads outside the code or the
   * constant pool; it never gives the intended listing.
   */
  lemma AsWrittenMisdecodes(code: seq<byte>, lines: seq<int>, constants: seq<Value>, offset: nat)
    requires |lines| == |code| && offset < |code| && OneByteName(code[offset]).Some?
    ensures DisasmInstrAsWritten(code, lines, constants, offset) != Listed(DisasmInstr(code, lines, constants, offset))
    ensures DisasmInstr(code, lines, constants, offset).instr == Simple(OneByteName(code[offset]).value)
  {
  }

  /**
   * The chunk compiled from "--0": constant 0 and two negations. Listed as
   * written, the first OP_NEGATE takes the second as the index of a
   * constant that does not exist, and the second OP_NEGATE takes OP_RET's
   * byte as index 0 and shows the constant there.
   */
  lemma AsWrittenNegateNegate(c: Value)
    ensures var code := [OpConst, 0, OpNegate, OpNegate, OpRet];
      var lines := [1, 1, 1, 1, 1];
      CodeOf(Prefix(Minus, Prefix(Minus, Literal(0)))) + [OpRet] == code &&
      DisasmInstrAsWritten(code, lines, [c], 2) == ReadsPastConstants(OpNegate) &&
      DisasmInstrAsWritten(code, lines, [c], 3) == Listed(Listing(3, 1, WithConstant("OP_NEGATE", 0, c))) &&
      DisasmInstr(code, lines, [c], 2).instr == Simple("OP_NEGATE") &&
      DisasmInstr(code, lines, [c], 3).instr == Simple("OP_NEGATE")
  {
    var code := [OpConst, 0, OpNegate, OpNegate, OpRet];
    assert CodeOf(Prefix(Minus, Literal(0))) == [OpConst, 0, OpNegate];
  }

  /**
   * The offsets disasm_chunk visits from `offset` on are all decodable: each
   * OP_CONST among them has its operand and names an existing constant.
   */
  predicate Decodable(code: seq<byte>, constants: seq<Value>, offset: nat)
    decreases |code| - offset
  {
    offset >= |code| ||
    ((code[offset] == OpConst ==> OperandOk(code, constants, offset)) &&
     Decodable(code, constants, offset + CodeOffset(code[offset])))
  }

  /** The listing disasm_chunk produces from `offset` to the end of the code. */
  function Walk(code: seq<byte>, lines: seq<int>, constants: seq<Value>, offset: nat): seq<Listing>
    requires |lines| == |code| && Decodable(code, constants, offset)
    decreases |code| - offset
  {
    if offset >= |code| then []
    else [DisasmInstr(code, lines, constants, offset)] + Walk(code, lines, constants, offset + CodeOffset(code[offset]))
  }

  /**
   * The walk starts at `offset`, lists offsets inside the code, each one
   * instruction width after the previous, and stops after the instruction
   * that reaches the end of the code.
   */
  lemma {:induction false} WalkOffsets(code: seq<byte>, lines: seq<int>, constants: seq<Value>, offset: nat)
    requires |lines| == |code| && Decodable(code, constants, offset)
    ensures var r := Walk(code, lines, constants, offset);
      (|r| > 0 <==> offset < |code|) &&
      (offset < |code| ==> |r| <= |code| - offset) &&
      (|r| > 0 ==> r[0].offset == offset) &&
      (forall k :: 0 <= k < |r| ==> offset <= r[k].offset < |code| && r[k].line == lines[r[k].offset]) &&
      (forall k :: 0 <= k < |r| - 1 ==> r[k + 1].offset == r[k].offset + CodeOffset(code[r[k].offset])) &&
      (|r| > 0 ==> r[|r| - 1].offset + CodeOffset(code[r[|r| - 1].offset]) >= |code|)
    decreases |code| - offset
  {
    if offset < |code| {
      var next := offset + CodeOffset(code[offset]);
      WalkOffsets(code, lines, constants, next);
      var rest := Walk(code, lines, constants, next);
      var r := Walk(code, lines, constants, offset);
      assert r == [DisasmInstr(code, lines, constants, offset)] + rest;
      assert forall k :: 1 <= k < |r| ==> r[k] == rest[k - 1];
    }
  }

  /** disasm_chunk visits the offsets in strictly increasing order, so it never lists one twice. */
  lemma WalkIncreasing(code: seq<byte>, lines: seq<int>, constants: seq<Value>, offset: nat)
    requires |lines| == |code| && Decodable(code, constants, offset)
    ensures var r := Walk(code, lines, constants, offset);
      forall i, j :: 0 <= i < j < |r| ==> r[i].offset < r[j].offset
  {
    var r := Walk(code, lines, constants, offset);
    WalkOffsets(code, lines, constants, offset);
    forall i, j | 0 <= i < j < |r|
      ensures r[i].offset < r[j].offset
    {
      var k := i;
      while k < j
        invariant i <= k <= j && r[i].offset <= r[k].offset
        invariant k > i ==> r[i].offset < r[k].offset
      {
        k := k + 1;
      }
    }
  }

  /**
   * `run`'s view of compiled code carries over to the disassembler: code
   * that `run` executes from `ip` to a final OP_RET is decodable from
   * `ip`, and its listing ends with that OP_RET.
   */
  lemma {:induction false} HaltingIsDecodable(code: seq<byte>, lines: seq<int>, constants: seq<Value>, ip: nat)
    requires |lines| == |code| && Halts(code, constants, ip) && StopAt(code, constants, ip) == |code|
    ensures Decodable(code, constants, ip)
    ensures var r := Walk(code, lines, constants, ip);
      |r| > 0 && r[|r| - 1] == Listing(|code| - 1, lines[|code| - 1], Simple("OP_RET"))
    decreases |code| - ip
  {
    if code[ip] != OpRet {
      HaltingIsDecodable(code, lines, constants, ip + Width(code[ip]));
    }
  }

  /**
   * Every chunk the compiler leaves for a complete expression can be
   * disassembled, and its listing ends with the final OP_RET.
   */
  lemma CompiledIsDecodable(e: Expr, lines: seq<int>, constants: seq<Value>)
    requires Complete(e) && IndicesBelow(e, |constants|) && |lines| == |CodeOf(e)| + 1
    ensures Decodable(CodeOf(e) + [OpRet], constants, 0)
    ensures var r := Walk(CodeOf(e) + [OpRet], lines, constants, 0);
      |r| > 0 && r[|r| - 1] == Listing(|CodeOf(e)|, lines[|CodeOf(e)|], Simple("OP_RET"))
  {
    CompiledRuns(e, constants);
    HaltingIsDecodable(CodeOf(e) + [OpRet], lines, constants, 0);
  }

  /**
   * disasm_chunk_code: decodes the instruction at `offset` and answers
   * get_code_offset of its opcode.
   */
  method DisasmChunkCode(t: Chunk, offset: nat) returns (width: nat, entry: Listing)
    requires t.Valid() && offset < t.count
    requires t.Code()[offset] == OpConst ==> OperandOk(t.Code(), t.Constants(), offset)
    ensures entry == DisasmInstr(t.Code(), t.Lines(), t.Constants(), offset)
    ensures width == CodeOffset(t.Code()[offset]) && width >= 1
  {
    var instr := t.code[offset];
    var line := t.lines[offset];
    if instr == OpRet {
      entry := Listing(offset, line, Simple("OP_RET"));
    } else if instr == OpConst {
      var index := t.code[offset + 1];
      var constant := t.constants.values[index];
      entry := Listing(offset, line, WithConstant("OP_CONST", index, constant));
    } else {
      var name := OneByteName(instr);
      entry := if name.Some? then Listing(offset, line, Simple(name.value)) else Listing(offset, line, Unknown(instr));
    }
    width := CodeOffset(instr);
  }

  /** disasm_chunk: decodes from offset 0, moving on by each instruction's width until the end of the code. */
  method DisasmChunk(t: Chunk) returns (listing: seq<Listing>)
    requires t.Valid() && Decodable(t.Code(), t.Constants(), 0)
    ensures listing == Walk(t.Code(), t.Lines(), t.Constants(), 0)
  {
    ghost var code := t.Code();
    ghost var lines := t.Lines();
    ghost var constants := t.Constants();
    var offset := 0;
    listing := [];
    while offset < t.count
      invariant Decodable(code, constants, offset)
      invariant listing + Walk(code, lines, constants, offset) == Walk(code, lines, constants, 0)
      decreases t.count - offset
    {
      var width, entry := DisasmChunkCode(t, offset);
      listing := listing + [entry];
      offset := offset + width;
    }
  }

  /**
   * print_value: "True" or "False" for a bool, "Null" for null, the number
   * in `%g` form (`formatNumber`), and nothing for an object.
   */
  function PrintValue(v: Value, formatNumber: real -> string): (r: string)
    ensures !v.NumberVal? ==>
      (r == "True" <==> v == BoolVal(true)) && (r == "False" <==> v == BoolVal(false)) &&
      (r == "Null" <==> v == NullVal) && (r == "" <==> v.ObjVal?)
    ensures v.NumberVal? ==> r == formatNumber(v.n)
  {
    match v
    case BoolVal(b) => if b then "True" else "False"
    case NullVal => "Null"
    case NumberVal(n) => formatNumber(n)
    case ObjVal(_) => ""
  }
}
