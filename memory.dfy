/**
 * The growth rule shared by every growable buffer of the virtual machine
 * (bytecode, line table, constant pool, hashtable).
 */
module Memory {

  /** GROW_CAPACITY: the next capacity of a full buffer (at least 8, then doubling). */
  function GrowCapacity(capacity: nat): (r: nat)
    ensures r > capacity && r >= 8
    ensures capacity < 8 ==> r == 8
    ensures capacity >= 8 ==> r == 2 * capacity
  {
    if capacity < 8 then 8 else capacity * 2
  }

  /**
   * MEM_GROW: a fresh buffer of the new length whose prefix holds the old
   * buffer's elements (realloc keeps the contents).
   */
  method Reallocate<T(0)>(buffer: array<T>, newLength: nat) returns (grown: array<T>)
    requires newLength >= buffer.Length
    ensures fresh(grown) && grown.Length == newLength
    ensures grown[..buffer.Length] == buffer[..]
  {
    grown := new T[newLength];
    forall i | 0 <= i < buffer.Length {
      grown[i] := buffer[i];
    }
  }
}
