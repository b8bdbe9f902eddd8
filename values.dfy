/**
 * Tagged values and the growable value array (values.c) that holds a chunk's
 * constant pool.
 */
module Values {
  import opened Memory

  /** One byte of bytecode or operand. */
  newtype byte = x: int | 0 <= x < 256

  /** A handle of a heap object: its index in the object arena (see module Objects). */
  type ObjRef = nat

  /**
   * A tagged value. Numbers are kept abstract as reals: no arithmetic is
   * performed on them anywhere in this core.
   */
  datatype Value = NullVal | BoolVal(b: bool) | NumberVal(n: real) | ObjVal(ref: ObjRef)

  /** VALUES_ARRAY_INIT_CAP: the initial capacity of a chunk's constant pool. */
  const ValuesArrayInitCap: nat := 4

  /** ValueArray: `values[..count]` are the stored values; `values.Length` is the capacity. */
  class ValueArray {
    var values: array<Value>
    var count: nat

    ghost predicate Valid()
      reads this
    {
      count <= values.Length
    }

    function Capacity(): nat
      reads this
    {
      values.Length
    }

    /** The values written so far, in order. */
    ghost function Contents(): seq<Value>
      reads this, values
      requires Valid()
    {
      values[..count]
    }

    /** valueArray_init: an empty array with the requested capacity. */
    constructor Init(arrayLength: nat)
      ensures Valid() && fresh(values)
      ensures count == 0 && Capacity() == arrayLength
      ensures Contents() == []
    {
      values := new Value[arrayLength];
      count := 0;
    }

    /**
     * valueArray_write: grows the buffer to GrowCapacity(capacity) exactly when
     * it is full, then stores `value` at index `count` and increments `count`.
     */
    method Write(value: Value)
      requires Valid()
      modifies this, values
      ensures Valid()
      ensures count == old(count) + 1 && values[count - 1] == value
      ensures Contents() == old(Contents()) + [value]
      ensures Capacity() == if old(count) + 1 > old(Capacity()) then GrowCapacity(old(Capacity())) else old(Capacity())
      ensures old(count) + 1 <= old(Capacity()) ==> values == old(values)
      ensures old(count) + 1 > old(Capacity()) ==> fresh(values)
    {
      if count + 1 > values.Length {
        values := Reallocate(values, GrowCapacity(values.Length));
      }
      values[count] := value;
      count := count + 1;
    }

    /** valueArray_destroy: releases the buffer; count and capacity become 0. */
    method Destroy()
      modifies this
      ensures Valid() && fresh(values)
      ensures count == 0 && Capacity() == 0
    {
      values := new Value[0];
      count := 0;
    }
  }
}
