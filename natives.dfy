/**
 * The math natives (builtin_natives/math.c) under the native-call
 * convention of natives.h: a native receives `argc`, the argument slots and
 * a success flag; on failure it clears the flag, stores an error string in
 * the slot just below the arguments and returns null.
 *
 * The slots are modelled as one array: `args[0]` is the error slot (the
 * source's `args[-1]`) and `args[1..]` are the arguments (the source's
 * `args[0..]`). The success flag is the first result of each method.
 */
module Natives {
  import opened Values
  import opened Objects

  const MaxArityMessage := "Expect 2 agrs in _max(a, b)"
  const MaxTypeMessage := "Invalid params for native, expect _max(number, number)."
  const MinArityMessage := "Expect 2 agrs in _min(a, b)"
  const MinTypeMessage := "Invalid params for native, expect _min(number, number)."

  /** The choice `_max` makes between two numbers: the first when strictly greater, else the second. */
  function PickMax(a: Value, b: Value): (r: Value)
    requires a.NumberVal? && b.NumberVal?
    ensures r == a || r == b
    ensures r.n >= a.n && r.n >= b.n
    ensures r == a <==> a.n > b.n || a == b
  {
    if a.n > b.n then a else b
  }

  /** The choice `_min` makes between two numbers: the first when strictly smaller, else the second. */
  function PickMin(a: Value, b: Value): (r: Value)
    requires a.NumberVal? && b.NumberVal?
    ensures r == a || r == b
    ensures r.n <= a.n && r.n <= b.n
    ensures r == a <==> a.n < b.n || a == b
  {
    if a.n < b.n then a else b
  }

  /** Between them, `_max` and `_min` of two numbers give back both numbers. */
  lemma MaxMinSplit(a: Value, b: Value)
    requires a.NumberVal? && b.NumberVal?
    ensures multiset{PickMax(a, b), PickMin(a, b)} == multiset{a, b}
    ensures PickMax(a, b) == PickMax(b, a) && PickMin(a, b) == PickMin(b, a)
  {
    if a.n == b.n {
      assert a == b;
    }
  }

  /**
   * The error slot holds a fresh string object, the newest in `heap`, whose
   * text starts with `msg`. Its length is `sizeof` of the message literal,
   * the terminating '\0' included.
   */
  ghost predicate HoldsError(heap: Heap, slot: Value, msg: string)
    reads heap
  {
    slot.ObjVal? && slot.ref + 1 == |heap.objs| &&
    heap.IsObjType(slot, StringType) &&
    heap.objs[slot.ref].body.length == |msg| + 1 &&
    |heap.objs[slot.ref].body.chars| == |msg| + 2 &&
    heap.objs[slot.ref].body.chars[..|msg|] == msg
  }

  /**
   * _native_call_error: clears the success flag, stores
   * copy_string(msg, sizeof(msg)) in the error slot and returns null.
   */
  method CallError(heap: Heap, args: array<Value>, msg: string) returns (success: bool, result: Value)
    requires heap.Valid() && args.Length > 0
    modifies heap, args
    ensures heap.Valid() && !success && result == NullVal
    ensures |heap.objs| == old(|heap.objs|) + 1 && heap.objs[..old(|heap.objs|)] == old(heap.objs)
    ensures HoldsError(heap, args[0], msg)
    ensures args[1..] == old(args[1..])
  {
    var r := heap.CopyString(msg + ['\0'], |msg| + 1);
    assert (msg + ['\0'])[..|msg| + 1][..|msg|] == msg;
    args[0] := ObjVal(r);
    success := false;
    result := NullVal;
  }

  /**
   * _max: with two number arguments, succeeds and answers the first when
   * it is strictly greater, else the second, changing nothing; with
   * another argument count, or a non-number argument, fails with the
   * matching message in the error slot.
   */
  method Max(heap: Heap, argc: int, args: array<Value>) returns (success: bool, result: Value)
    requires heap.Valid() && argc >= 0 && args.Length == argc + 1
    modifies heap, args
    ensures heap.Valid()
    ensures success <==> argc == 2 && old(args[1]).NumberVal? && old(args[2]).NumberVal?
    ensures success ==> result == PickMax(old(args[1]), old(args[2])) && args[..] == old(args[..]) && heap.objs == old(heap.objs)
    ensures !success ==>
      result == NullVal && args[1..] == old(args[1..]) &&
      HoldsError(heap, args[0], if argc != 2 then MaxArityMessage else MaxTypeMessage)
    ensures !success ==>
      |heap.objs| == old(|heap.objs|) + 1 && heap.objs[..old(|heap.objs|)] == old(heap.objs)
  {
    if argc != 2 {
      success, result := CallError(heap, args, MaxArityMessage);
      return;
    }
    if args[1].NumberVal? && args[2].NumberVal? {
      if args[1].n > args[2].n {
        return true, args[1];
      } else {
        return true, args[2];
      }
    }
    success, result := CallError(heap, args, MaxTypeMessage);
  }

  /**
   * _min: with two number arguments, succeeds and answers the first when
   * it is strictly smaller, else the second, changing nothing; with
   * another argument count, or a non-number argument, fails with the
   * matching message in the error slot.
   */
  method Min(heap: Heap, argc: int, args: array<Value>) returns (success: bool, result: Value)
    requires heap.Valid() && argc >= 0 && args.Length == argc + 1
    modifies heap, args
    ensures heap.Valid()
    ensures success <==> argc == 2 && old(args[1]).NumberVal? && old(args[2]).NumberVal?
    ensures success ==> result == PickMin(old(args[1]), old(args[2])) && args[..] == old(args[..]) && heap.objs == old(heap.objs)
    ensures !success ==>
      result == NullVal && args[1..] == old(args[1..]) &&
      HoldsError(heap, args[0], if argc != 2 then MinArityMessage else MinTypeMessage)
    ensures !success ==>
      |heap.objs| == old(|heap.objs|) + 1 && heap.objs[..old(|heap.objs|)] == old(heap.objs)
  {
    if argc != 2 {
      success, result := CallError(heap, args, MinArityMessage);
      return;
    }
    if args[1].NumberVal? && args[2].NumberVal? {
      if args[1].n < args[2].n {
        return true, args[1];
      } else {
        return true, args[2];
      }
    }
    success, result := CallError(heap, args, MinTypeMessage);
  }
}
