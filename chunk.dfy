/**
 * Bytecode chunks (chunk.c): the bytecode, a parallel line table and the
 * constant pool.
 */
module Chunks {
  import opened Memory
  import opened Values

  /*
   * Opcode bytes. The opcode enumeration itself is not part of this model;
   * the set of opcodes is the one the disassembler (debug.c) knows, and the
   * numbering below is this model's choice, OP_RET first as in chunk.h.
   */
  const OpRet: byte := 0
  const OpConst: byte := 1
  const OpNegate: byte := 2
  const OpAdd: byte := 3
  const OpSub: byte := 4
  const OpMul: byte := 5
  const OpDiv: byte := 6
  const OpTrue: byte := 7
  const OpFalse: byte := 8
  const OpNull: byte := 9
  const OpNot: byte := 10
  const OpEqual: byte := 11
  const OpLess: byte := 12
  const OpGreater: byte := 13

  /**
   * Chunk: `code[..count]` is the bytecode, `lines[..count]` the source line
   * of each byte; both buffers have length `capacity`.
   */
  class Chunk {
    var code: array<byte>
    var lines: array<int>
    var count: nat
    var constants: ValueArray

    ghost predicate Valid()
      reads this, constants
    {
      code.Length == lines.Length && count <= code.Length && constants.Valid()
    }

    function Capacity(): nat
      reads this
    {
      code.Length
    }

    ghost function Repr(): set<object>
      reads this, constants
    {
      {this, code, lines, constants, constants.values}
    }

    /** The bytes written so far. */
    ghost function Code(): seq<byte>
      reads this, code, constants
      requires Valid()
    {
      code[..count]
    }

    /** The source line recorded for each byte written so far. */
    ghost function Lines(): seq<int>
      reads this, lines, constants
      requires Valid()
    {
      lines[..count]
    }

    /** The constant pool. */
    ghost function Constants(): seq<Value>
      reads this, constants, constants.values
      requires Valid()
    {
      constants.Contents()
    }

    /**
     * chunk_init: no bytes, `codeLength` capacity, and an empty constant pool
     * of capacity VALUES_ARRAY_INIT_CAP.
     */
    constructor Init(codeLength: nat)
      ensures Valid() && fresh(Repr())
      ensures count == 0 && Capacity() == codeLength && Code() == [] && Lines() == []
      ensures Constants() == [] && constants.Capacity() == ValuesArrayInitCap
    {
      code := new byte[codeLength];
      lines := new int[codeLength];
      constants := new ValueArray.Init(ValuesArrayInitCap);
      count := 0;
    }

    /**
     * chunk_write, with the growth branch storing the byte as the value array
     * does: grows both buffers to GrowCapacity(capacity) when full, then
     * stores `b` and `line` at index `count`. (As written, the source drops
     * the byte and line on a write that grows the buffers; see
     * WriteAsWritten.)
     */
    method Write(b: byte, line: int)
      requires Valid()
      modifies this, code, lines
      ensures Valid() && constants == old(constants)
      ensures count == old(count) + 1 && code[count - 1] == b && lines[count - 1] == line
      ensures Code() == old(Code()) + [b] && Lines() == old(Lines()) + [line]
      ensures Capacity() == if old(count) + 1 > old(Capacity()) then GrowCapacity(old(Capacity())) else old(Capacity())
      ensures fresh(Repr() - old(Repr()))
    {
      if count + 1 > code.Length {
        var newCap := GrowCapacity(code.Length);
        code := Reallocate(code, newCap);
        lines := Reallocate(lines, newCap);
      }
      lines[count] := line;
      code[count] := b;
      count := count + 1;
    }

    /**
     * chunk_write as written: when the buffers are full it only grows them,
     * and the byte and its line are lost.
     */
    method WriteAsWritten(b: byte, line: int)
      requires Valid()
      modifies this, code, lines
      ensures Valid() && constants == old(constants)
      ensures old(count) + 1 > old(Capacity()) ==>
        count == old(count) && Code() == old(Code()) && Lines() == old(Lines()) &&
        Capacity() == GrowCapacity(old(Capacity()))
      ensures old(count) + 1 <= old(Capacity()) ==>
        Code() == old(Code()) + [b] && Lines() == old(Lines()) + [line] && Capacity() == old(Capacity())
      ensures fresh(Repr() - old(Repr()))
    {
      if count + 1 > code.Length {
        var newCap := GrowCapacity(code.Length);
        code := Reallocate(code, newCap);
        lines := Reallocate(lines, newCap);
      } else {
        lines[count] := line;
        code[count] := b;
        count := count + 1;
      }
    }

    /** chunk_add_constant: appends to the pool and returns the new constant's index. */
    method AddConstant(value: Value) returns (index: int)
      requires Valid()
      modifies constants, constants.values
      ensures Valid()
      ensures Constants() == old(Constants()) + [value]
      ensures index == |old(Constants())| && Constants()[index] == value
      ensures fresh(Repr() - old(Repr()))
    {
      constants.Write(value);
      index := constants.count - 1;
    }

    /** chunk_destroy: count and capacity become 0 and the constant pool is released. */
    method Destroy()
      requires Valid()
      modifies this, constants
      ensures Valid()
      ensures count == 0 && Capacity() == 0 && Constants() == [] && constants.Capacity() == 0
    {
      code := new byte[0];
      lines := new int[0];
      count := 0;
      constants.Destroy();
    }
  }
}
