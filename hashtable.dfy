/**
 * The open-addressed hashtable of tools/hashtable.c: string keys compared by
 * identity, linear probing, tombstone deletion, and growth by the shared
 * GrowCapacity rule once the load would pass three quarters.
 */
module Hashtables {
  import opened Wrappers
  import opened Values
  import opened Memory
  import opened Probing

  /**
   * find_entry, with the linear probe step: the slot holding `key`, or else
   * the first tombstone before the first never-used slot, or else that
   * never-used slot. A table with a never-used slot is required: on a full
   * table the probe would never stop.
   */
  method FindEntry(entries: array<Entry>, key: ObjRef, hash: ObjRef -> nat) returns (index: nat)
    requires entries.Length > 0 && HasEmpty(entries[..])
    ensures index == Probe(entries[..], key, Home(hash, key, entries.Length))
  {
    ghost var s := entries[..];
    var capacity := entries.Length;
    var home := hash(key) % capacity;
    ghost var e :| 0 <= e < |s| && IsEmpty(s[e]);
    SlotDist(home, 0, e, capacity);
    var d := 0;
    var i := home;
    var tombstone: Option<nat> := None;
    while !(entries[i].key.None? && entries[i].value == NullVal) && entries[i].key != Some(key)
      invariant d <= Dist(home, e, capacity) && i == Slot(home, d, capacity)
      invariant tombstone.Some? ==> tombstone.value < capacity
      invariant ProbeFrom(s, key, home, d, tombstone) == Probe(s, key, home)
      decreases Dist(home, e, capacity) - d
    {
      if entries[i].key.None? && tombstone.None? {
        tombstone := Some(i);
      }
      d := d + 1;
      i := if home + d < capacity then home + d else home + d - capacity;
    }
    index := if entries[i].key.None? && tombstone.Some? then tombstone.value else i;
  }

  /**
   * Hashtable: `entries.Length` is the capacity; `count` is the number of
   * slots in use, tombstones included. `hash` is the keys' hash function
   * (the hash a string key carries), fixed for the table's life.
   */
  class Hashtable {
    var entries: array<Entry>
    var count: int
    const hash: ObjRef -> nat

    ghost predicate Valid()
      reads this, entries
    {
      var s := entries[..];
      count == Used(s) && 4 * count <= 3 * |s| && Unique(s) && Chained(s, hash)
    }

    function Capacity(): nat
      reads this
    {
      entries.Length
    }

    /** The value the table stores under `key`, if any. */
    ghost function Binding(key: ObjRef): Option<Value>
      reads this, entries
    {
      Lookup(entries[..], key)
    }

    /** The slot find_entry answers for `key`. */
    ghost function ProbeSlot(key: ObjRef): nat
      reads this, entries
      requires Capacity() > 0
    {
      Probe(entries[..], key, Home(hash, key, entries.Length))
    }

    /** init_hashtable: no entries, capacity 0, count 0. */
    constructor Init(hash: ObjRef -> nat)
      ensures Valid() && this.hash == hash
      ensures count == 0 && Capacity() == 0
      ensures forall key :: Binding(key) == None
    {
      entries := new Entry[0];
      count := 0;
      this.hash := hash;
    }

    /** destroy_hashtable: releases the entries and reinitialises the table. */
    method Destroy()
      modifies this
      ensures Valid() && count == 0 && Capacity() == 0
      ensures forall key :: Binding(key) == None
    {
      entries := new Entry[0];
      count := 0;
    }

    /**
     * hashtable_get: an empty table answers false without probing;
     * otherwise the table answers whether it stores `key`, and the stored
     * value when it does (`previous` stands for the untouched out-parameter).
     */
    method Get(key: ObjRef, previous: Value) returns (found: bool, value: Value)
      requires Valid()
      ensures found <==> Binding(key).Some?
      ensures value == if found then Binding(key).value else previous
    {
      ghost var s := entries[..];
      UsedBound(s);
      if count <= 0 {
        return false, previous;
      }
      var i := FindEntry(entries, key, hash);
      ProbeFacts(s, hash, key);
      if entries[i].key.None? {
        return false, previous;
      }
      return true, entries[i].value;
    }

    /**
     * adjust_capacity, rebuilding as intended: a table of `newCapacity`
     * never-used slots receives every live entry of the old one; tombstones
     * are dropped and `count` becomes the number of live entries. (As
     * written, the source reads the old entries up to the new capacity and
     * never resets `count`; see Probing.AdjustAsWritten.)
     */
    method AdjustCapacity(newCapacity: nat)
      requires Valid() && newCapacity >= Capacity()
      modifies this
      ensures Valid() && fresh(entries) && Capacity() == newCapacity
      ensures count == old(LiveCount(entries[..])) <= old(count) && NoTombstones(entries[..])
      ensures forall key :: Binding(key) == old(Binding(key))
    {
      var rebuilt := new Entry[newCapacity](_ => EmptyEntry);
      ghost var src := entries[..];
      AllEmptyTable(rebuilt[..], hash);
      var rebuiltCount := 0;
      var i := 0;
      while i < entries.Length
        invariant 0 <= i <= |src| && rebuilt.Length == newCapacity
        invariant entries == old(entries) && entries[..] == src && count == old(count)
        invariant Unique(rebuilt[..]) && Chained(rebuilt[..], hash) && NoTombstones(rebuilt[..])
        invariant rebuiltCount == Used(rebuilt[..]) == LiveCount(src[..i]) && rebuiltCount <= i
        invariant forall key :: Lookup(rebuilt[..], key) == Lookup(src[..i], key)
      {
        var e := entries[i];
        if e.key.Some? {
          RehashStep(src, i, rebuilt[..], hash);
          var dest := FindEntry(rebuilt, e.key.value, hash);
          rebuilt[dest] := e;
          rebuiltCount := rebuiltCount + 1;
        } else {
          SkipStep(src, i, rebuilt[..]);
        }
        i := i + 1;
      }
      assert src[..i] == src;
      LiveBelowUsed(src);
      entries := rebuilt;
      count := rebuiltCount;
    }

    /**
     * hashtable_set: grows the table to GrowCapacity(capacity) first when
     * one more entry would pass the 3/4 load; then stores `value` under
     * `key`. Answers whether the key is new. Without growth, `count` grows
     * exactly when the key lands in a never-used slot: overwriting a key or
     * reusing a tombstone leaves it unchanged.
     */
    method Set(key: ObjRef, value: Value) returns (isNew: bool)
      requires Valid()
      modifies this, entries
      ensures Valid()
      ensures isNew <==> old(Binding(key)).None?
      ensures forall k :: Binding(k) == if k == key then Some(value) else old(Binding(k))
      ensures Capacity() == if 4 * (old(count) + 1) > 3 * old(Capacity()) then GrowCapacity(old(Capacity())) else old(Capacity())
      ensures entries == old(entries) || fresh(entries)
      ensures 4 * (old(count) + 1) <= 3 * old(Capacity()) ==>
        entries == old(entries) &&
        entries[..] == old(entries[..][ProbeSlot(key) := Entry(Some(key), value)]) &&
        count == old(count + if IsEmpty(entries[ProbeSlot(key)]) then 1 else 0)
      ensures 4 * (old(count) + 1) > 3 * old(Capacity()) ==>
        count == old(LiveCount(entries[..])) + if old(Binding(key)).None? then 1 else 0
    {
      if 4 * (count + 1) > 3 * entries.Length {
        AdjustCapacity(GrowCapacity(entries.Length));
      }
      assert 4 * (count + 1) <= 3 * entries.Length;
      ghost var s := entries[..];
      UsedBound(s);
      var i := FindEntry(entries, key, hash);
      InsertFacts(s, hash, key, value);
      ProbeFacts(s, hash, key);
      isNew := entries[i].key.None?;
      if isNew && entries[i].value == NullVal {
        count := count + 1;
      }
      entries[i] := Entry(Some(key), value);
      assert entries[..] == s[i := Entry(Some(key), value)];
    }

    /**
     * hashtable_delete: answers false and changes nothing when the key is
     * absent; otherwise leaves a tombstone in its slot, keeping `count`.
     */
    method Delete(key: ObjRef) returns (deleted: bool)
      requires Valid()
      modifies entries
      ensures Valid() && count == old(count)
      ensures deleted <==> old(Binding(key)).Some?
      ensures forall k :: Binding(k) == if k == key then None else old(Binding(k))
      ensures !deleted ==> entries[..] == old(entries[..])
      ensures deleted ==> Capacity() > 0 && entries[..] == old(entries[..][ProbeSlot(key) := Tombstone])
    {
      ghost var s := entries[..];
      UsedBound(s);
      if count <= 0 {
        return false;
      }
      var i := FindEntry(entries, key, hash);
      ProbeFacts(s, hash, key);
      if entries[i].key.None? {
        return false;
      }
      DeleteFacts(s, hash, key);
      entries[i] := Tombstone;
      assert entries[..] == s[i := Tombstone];
      deleted := true;
    }
  }

  /**
   * hashtable_copy: sets every live entry of `from` into `to`; afterwards
   * `to` maps each key of `from` to its value there, and keeps its own
   * value for every other key.
   */
  method Copy(from: Hashtable, to: Hashtable)
    requires from.Valid() && to.Valid() && from != to && from.entries != to.entries
    modifies to, to.entries
    ensures to.Valid()
    ensures forall k :: to.Binding(k) == if from.Binding(k).Some? then from.Binding(k) else old(to.Binding(k))
  {
    ghost var src := from.entries[..];
    ghost var base := to.entries[..];
    var i := 0;
    while i < from.entries.Length
      invariant 0 <= i <= |src| && from.entries[..] == src
      invariant to.Valid() && to.entries != from.entries
      invariant to.entries == old(to.entries) || fresh(to.entries)
      invariant forall k :: to.Binding(k) == Merged(src[..i], base, k)
    {
      ghost var t := to.entries[..];
      var e := from.entries[i];
      if e.key.Some? {
        var _ := to.Set(e.key.value, e.value);
      }
      CopyStep(src, i, base, t, to.entries[..]);
      i := i + 1;
    }
    assert src[..i] == src;
  }
}
