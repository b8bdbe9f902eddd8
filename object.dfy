/**
 * Heap objects (object.c). Objects live in an arena and are addressed by
 * handle; every allocation is also linked at the head of the process-wide
 * object list (`vm.objects`), the future root set of a collector.
 */
module Objects {
  import opened Wrappers
  import opened Values

  /** ObjType: the only object kind of this snapshot is the string. */
  datatype ObjType = StringType

  /** The kind-specific part of an object: a string's length and character buffer. */
  datatype Body = StringBody(length: int, chars: seq<char>)

  /** An object: its type tag, its link to the previously allocated object, its body. */
  datatype Obj = Obj(kind: ObjType, next: Option<ObjRef>, body: Body)

  /** The handle of the newest of `n` objects, if any. */
  function Newest(n: nat): Option<ObjRef>
  {
    if n == 0 then None else Some(n - 1)
  }

  /** Each object links to the one allocated just before it. */
  ghost predicate Linked(objs: seq<Obj>)
  {
    forall i :: 0 <= i < |objs| ==> objs[i].next == Newest(i)
  }

  /** The object list walked from `from` along the `next` links. */
  ghost function Walk(objs: seq<Obj>, from: Option<ObjRef>): (r: seq<ObjRef>)
    requires Linked(objs)
    requires from.Some? ==> from.value < |objs|
    decreases if from.Some? then from.value + 1 else 0
  {
    match from
    case None => []
    case Some(i) => [i] + Walk(objs, objs[i].next)
  }

  /** Walking from the newest of n objects visits every handle n-1, ..., 0 exactly once. */
  lemma {:induction false} WalkVisitsAll(objs: seq<Obj>, n: nat)
    requires Linked(objs) && n <= |objs|
    ensures |Walk(objs, Newest(n))| == n
    ensures forall k :: 0 <= k < n ==> Walk(objs, Newest(n))[k] == n - 1 - k
  {
    if n > 0 {
      WalkVisitsAll(objs, n - 1);
    }
  }

  /** Appending an object does not change the walk from an older head. */
  lemma {:induction false} WalkUnchangedByAppend(objs: seq<Obj>, o: Obj, from: Option<ObjRef>)
    requires Linked(objs) && Linked(objs + [o])
    requires from.Some? ==> from.value < |objs|
    ensures Walk(objs + [o], from) == Walk(objs, from)
    decreases if from.Some? then from.value + 1 else 0
  {
    if from.Some? {
      assert (objs + [o])[from.value] == objs[from.value];
      WalkUnchangedByAppend(objs, o, objs[from.value].next);
    }
  }

  class Heap {
    /** The arena: the object with handle r is objs[r]. */
    var objs: seq<Obj>
    /** vm.objects: the head of the object list. */
    var objects: Option<ObjRef>

    ghost predicate Valid()
      reads this
    {
      Linked(objs) && objects == Newest(|objs|)
    }

    /** The object list, newest first. */
    ghost function List(): seq<ObjRef>
      reads this
      requires Valid()
    {
      Walk(objs, objects)
    }

    constructor Init()
      ensures Valid() && objs == [] && objects == None
    {
      objs := [];
      objects := None;
    }

    /** is_obj_type: `v` is an object whose type tag is `t`. */
    predicate IsObjType(v: Value, t: ObjType): (r: bool)
      reads this
      requires v.ObjVal? ==> v.ref < |objs|
      ensures r ==> v.ObjVal? && objs[v.ref].kind == t
      ensures !v.ObjVal? ==> !r
      ensures v.ObjVal? && objs[v.ref].kind != t ==> !r
    {
      v.ObjVal? && objs[v.ref].kind == t
    }

    /**
     * allocate_obj: sets the type tag of a new object and makes it the head of
     * the object list, the previous list becoming its tail.
     */
    method AllocateObj(kind: ObjType, body: Body) returns (r: ObjRef)
      requires Valid()
      modifies this
      ensures Valid()
      ensures r == old(|objs|) && objs == old(objs) + [Obj(kind, old(objects), body)]
      ensures objects == Some(r) && objs[r].kind == kind
      ensures List() == [r] + old(List())
    {
      ghost var before := objs;
      r := |objs|;
      objs := objs + [Obj(kind, objects, body)];
      objects := Some(r);
      WalkUnchangedByAppend(before, objs[r], objs[r].next);
    }

    /** allocate_string: a string object owning the given buffer. */
    method AllocateString(chars: seq<char>, length: int) returns (r: ObjRef)
      requires Valid()
      modifies this
      ensures Valid()
      ensures r == old(|objs|) && |objs| == r + 1 && objs[..r] == old(objs)
      ensures IsObjType(ObjVal(r), StringType) && objs[r].body == StringBody(length, chars)
      ensures List() == [r] + old(List())
    {
      r := AllocateObj(StringType, StringBody(length, chars));
    }

    /** new_string: wraps the given buffer as-is, without copying it. */
    method NewString(chars: seq<char>, length: int) returns (r: ObjRef)
      requires Valid()
      modifies this
      ensures Valid()
      ensures r == old(|objs|) && |objs| == r + 1 && objs[..r] == old(objs)
      ensures IsObjType(ObjVal(r), StringType) && objs[r].body == StringBody(length, chars)
      ensures List() == [r] + old(List())
    {
      r := AllocateString(chars, length);
    }

    /**
     * copy_string: copies the first `length` characters into a fresh buffer
     * terminated by '\0' and wraps it as a string of that length.
     */
    method CopyString(chars: seq<char>, length: nat) returns (r: ObjRef)
      requires Valid()
      requires length <= |chars|
      modifies this
      ensures Valid()
      ensures r == old(|objs|) && |objs| == r + 1 && objs[..r] == old(objs)
      ensures IsObjType(ObjVal(r), StringType)
      ensures objs[r].body.length == length && |objs[r].body.chars| == length + 1
      ensures objs[r].body.chars[..length] == chars[..length] && objs[r].body.chars[length] == '\0'
      ensures List() == [r] + old(List())
    {
      var heapChars := chars[..length] + ['\0'];
      r := AllocateString(heapChars, length);
    }
  }

  /** In a valid heap the object list enumerates every allocated object, newest first. */
  lemma ListEnumeratesAll(h: Heap)
    requires h.Valid()
    ensures |h.List()| == |h.objs|
    ensures forall k :: 0 <= k < |h.objs| ==> h.List()[k] == |h.objs| - 1 - k
  {
    WalkVisitsAll(h.objs, |h.objs|);
  }
}
