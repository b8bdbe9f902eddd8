/**
 * The slot arithmetic of the open-addressed hashtable (tools/hashtable.c),
 * stated on the sequence of its entries: linear probing from a key's home
 * slot, tombstones, the invariants a table keeps, and what a probe returns.
 */
module Probing {
  import opened Wrappers
  import opened Values
  import opened Memory

  /**
   * Entry: a key (None is the NULL key pointer; keys are compared by
   * identity, so a key is the handle of its string object) and a value.
   */
  datatype Entry = Entry(key: Option<ObjRef>, value: Value)

  /** A never-used slot: NULL key, null value. */
  const EmptyEntry: Entry := Entry(None, NullVal)

  /** The slot left by hashtable_delete: NULL key, value `true`. */
  const Tombstone: Entry := Entry(None, BoolVal(true))

  predicate IsEmpty(e: Entry)
  {
    e.key.None? && e.value == NullVal
  }

  /** The home slot of a key: its hash modulo the capacity. */
  function Home(hash: ObjRef -> nat, key: ObjRef, capacity: nat): (h: nat)
    requires capacity > 0
    ensures h < capacity
  {
    hash(key) % capacity
  }

  /** The slot `d` steps after `home`, wrapping around at the capacity. */
  function Slot(home: nat, d: nat, capacity: nat): (i: nat)
    requires home < capacity && d < capacity
    ensures i < capacity
  {
    if home + d < capacity then home + d else home + d - capacity
  }

  /** The number of probe steps from `home` to slot `i`. */
  function Dist(home: nat, i: nat, capacity: nat): (d: nat)
    requires home < capacity && i < capacity
    ensures d < capacity
  {
    if home <= i then i - home else i + capacity - home
  }

  /** Slot and Dist are inverse: the probe sequence visits every slot exactly once. */
  lemma SlotDist(home: nat, d: nat, i: nat, capacity: nat)
    requires home < capacity && d < capacity && i < capacity
    ensures Slot(home, Dist(home, i, capacity), capacity) == i
    ensures Dist(home, Slot(home, d, capacity), capacity) == d
  {
  }

  /** The first `d` slots of the probe sequence from `home` are all in use. */
  ghost predicate FullUpTo(s: seq<Entry>, home: nat, d: nat)
    requires home < |s| && d <= |s|
  {
    forall k :: 0 <= k < d ==> !IsEmpty(s[Slot(home, k, |s|)])
  }

  /** The first `d` slots of the probe sequence from `home` all hold keys (no tombstone among them). */
  ghost predicate LiveUpTo(s: seq<Entry>, home: nat, d: nat)
    requires home < |s| && d <= |s|
  {
    forall k :: 0 <= k < d ==> s[Slot(home, k, |s|)].key.Some?
  }

  /** None of the first `d` slots of the probe sequence from `home` holds `key`. */
  ghost predicate MissingUpTo(s: seq<Entry>, key: ObjRef, home: nat, d: nat)
    requires home < |s| && d <= |s|
  {
    forall k :: 0 <= k < d ==> s[Slot(home, k, |s|)].key != Some(key)
  }

  ghost predicate HasEmpty(s: seq<Entry>)
  {
    exists i :: 0 <= i < |s| && IsEmpty(s[i])
  }

  ghost predicate NoTombstones(s: seq<Entry>)
  {
    forall i :: 0 <= i < |s| && s[i].key.None? ==> IsEmpty(s[i])
  }

  /** Every key is stored in at most one slot. */
  ghost predicate Unique(s: seq<Entry>)
  {
    forall i, j :: 0 <= i < |s| && 0 <= j < |s| && s[i].key.Some? && s[i].key == s[j].key ==> i == j
  }

  /** Every stored key is reachable from its home slot without crossing a never-used slot. */
  ghost predicate Chained(s: seq<Entry>, hash: ObjRef -> nat)
  {
    forall j :: 0 <= j < |s| && s[j].key.Some? ==>
      var home := Home(hash, s[j].key.value, |s|);
      FullUpTo(s, home, Dist(home, j, |s|))
  }

  /** The value a table stores under `key`, if any. */
  ghost function Lookup(s: seq<Entry>, key: ObjRef): Option<Value>
  {
    if exists i :: 0 <= i < |s| && s[i].key == Some(key) then
      var i :| 0 <= i < |s| && s[i].key == Some(key);
      Some(s[i].value)
    else
      None
  }

  /** The number of slots in use: keys and tombstones. */
  function Used(s: seq<Entry>): nat
  {
    if s == [] then 0 else Used(s[..|s| - 1]) + if IsEmpty(s[|s| - 1]) then 0 else 1
  }

  /** The number of slots that hold a key. */
  function LiveCount(s: seq<Entry>): nat
  {
    if s == [] then 0 else LiveCount(s[..|s| - 1]) + if s[|s| - 1].key.Some? then 1 else 0
  }

  /**
   * find_entry with the linear probe step: walks the probe sequence from
   * `home`, `d` steps in, having met the first tombstone `tombstone`; stops
   * at the key, or at a never-used slot, answering the first tombstone met
   * in preference to it. (The answer for `d == |s|` is never reached on a
   * table with a never-used slot.)
   */
  function ProbeFrom(s: seq<Entry>, key: ObjRef, home: nat, d: nat, tombstone: Option<nat>): (r: nat)
    requires home < |s| && d <= |s|
    requires tombstone.Some? ==> tombstone.value < |s|
    ensures r < |s|
    decreases |s| - d
  {
    if d == |s| then
      (if tombstone.Some? then tombstone.value else home)
    else
      var i := Slot(home, d, |s|);
      if s[i].key.None? then
        if s[i].value == NullVal then
          (if tombstone.Some? then tombstone.value else i)
        else
          ProbeFrom(s, key, home, d + 1, if tombstone.None? then Some(i) else tombstone)
      else if s[i].key == Some(key) then
        i
      else
        ProbeFrom(s, key, home, d + 1, tombstone)
  }

  /** The slot find_entry returns for `key` probing from `home`. */
  function Probe(s: seq<Entry>, key: ObjRef, home: nat): (r: nat)
    requires home < |s|
    ensures r < |s|
  {
    ProbeFrom(s, key, home, 0, None)
  }

  /** A probe that has only met slots in use has not gone round the table yet. */
  lemma EmptyAhead(s: seq<Entry>, home: nat, d: nat)
    requires home < |s| && d <= |s| && HasEmpty(s) && FullUpTo(s, home, d)
    ensures d < |s|
  {
    var e :| 0 <= e < |s| && IsEmpty(s[e]);
    SlotDist(home, 0, e, |s|);
  }

  /**
   * What a probe returns: the probe sequence up to the answer is in use; and
   * when the answer does not hold the key, it is the first slot on the
   * sequence without a key, and no slot holding the key is reachable from
   * `home` without crossing a never-used slot.
   */
  lemma {:induction false} ProbeFromFacts(s: seq<Entry>, key: ObjRef, home: nat, d: nat, tombstone: Option<nat>)
    requires home < |s| && d <= |s| && HasEmpty(s)
    requires FullUpTo(s, home, d) && MissingUpTo(s, key, home, d)
    requires tombstone.None? ==> LiveUpTo(s, home, d)
    requires tombstone.Some? ==>
      tombstone.value < |s| && Dist(home, tombstone.value, |s|) < d &&
      s[tombstone.value].key.None? && LiveUpTo(s, home, Dist(home, tombstone.value, |s|))
    ensures var r := ProbeFrom(s, key, home, d, tombstone);
      FullUpTo(s, home, Dist(home, r, |s|)) &&
      (s[r].key != Some(key) ==>
        s[r].key.None? && LiveUpTo(s, home, Dist(home, r, |s|)) &&
        forall j :: 0 <= j < |s| && s[j].key == Some(key) ==> !FullUpTo(s, home, Dist(home, j, |s|)))
    decreases |s| - d
  {
    EmptyAhead(s, home, d);
    var i := Slot(home, d, |s|);
    SlotDist(home, d, i, |s|);
    if s[i].key.None? {
      if s[i].value == NullVal {
        forall j | 0 <= j < |s| && s[j].key == Some(key)
          ensures !FullUpTo(s, home, Dist(home, j, |s|))
        {
          SlotDist(home, 0, j, |s|);
        }
        if tombstone.Some? {
          SlotDist(home, 0, tombstone.value, |s|);
        }
      } else {
        ProbeFromFacts(s, key, home, d + 1, if tombstone.None? then Some(i) else tombstone);
      }
    } else if s[i].key != Some(key) {
      ProbeFromFacts(s, key, home, d + 1, tombstone);
    }
  }

  lemma LookupAt(s: seq<Entry>, key: ObjRef, i: nat)
    requires Unique(s) && i < |s| && s[i].key == Some(key)
    ensures Lookup(s, key) == Some(s[i].value)
  {
  }

  /** Without a never-used slot free, a table's load bound would be broken. */
  lemma {:induction false} UsedBound(s: seq<Entry>)
    ensures Used(s) <= |s|
    ensures Used(s) < |s| ==> HasEmpty(s)
    ensures Used(s) == 0 ==> forall i :: 0 <= i < |s| ==> IsEmpty(s[i])
  {
    if s != [] {
      var p := s[..|s| - 1];
      UsedBound(p);
      if Used(p) < |p| {
        var e :| 0 <= e < |p| && IsEmpty(p[e]);
        assert IsEmpty(s[e]);
      }
    }
  }

  /** Overwriting one slot changes the number of slots in use by at most one, as its emptiness changes. */
  lemma {:induction false} UsedUpdate(s: seq<Entry>, i: nat, x: Entry)
    requires i < |s|
    ensures Used(s[i := x]) == Used(s) - (if IsEmpty(s[i]) then 0 else 1) + (if IsEmpty(x) then 0 else 1)
  {
    var t := s[i := x];
    if i < |s| - 1 {
      assert t[..|t| - 1] == s[..|s| - 1][i := x];
      UsedUpdate(s[..|s| - 1], i, x);
    } else {
      assert t[..|t| - 1] == s[..|s| - 1];
    }
  }

  /** Every slot holding a key is in use. */
  lemma {:induction false} LiveBelowUsed(s: seq<Entry>)
    ensures LiveCount(s) <= Used(s)
    ensures NoTombstones(s) ==> LiveCount(s) == Used(s)
  {
    if s != [] {
      LiveBelowUsed(s[..|s| - 1]);
    }
  }

  /** A table entirely of never-used slots stores nothing and meets every invariant. */
  lemma {:induction false} AllEmptyTable(s: seq<Entry>, hash: ObjRef -> nat)
    requires forall i :: 0 <= i < |s| ==> s[i] == EmptyEntry
    ensures Used(s) == 0 && Unique(s) && Chained(s, hash) && NoTombstones(s)
    ensures forall key :: Lookup(s, key) == None
  {
    if s != [] {
      AllEmptyTable(s[..|s| - 1], hash);
    }
  }

  lemma UniquePrefix(s: seq<Entry>, n: nat)
    requires Unique(s) && n <= |s|
    ensures Unique(s[..n])
  {
    assert forall i :: 0 <= i < n ==> s[..n][i] == s[i];
  }

  /** The value of a key in a table with one more entry at its end. */
  lemma LookupExtend(s: seq<Entry>, x: Entry, key: ObjRef)
    requires Unique(s + [x])
    ensures Lookup(s + [x], key) == if x.key == Some(key) then Some(x.value) else Lookup(s, key)
  {
    var t := s + [x];
    assert t[..|s|] == s;
    UniquePrefix(t, |s|);
    if x.key == Some(key) {
      LookupAt(t, key, |s|);
    } else if exists i :: 0 <= i < |s| && s[i].key == Some(key) {
      var i :| 0 <= i < |s| && s[i].key == Some(key);
      assert t[i] == s[i];
      LookupAt(t, key, i);
      LookupAt(s, key, i);
    } else {
      assert forall i :: 0 <= i < |t| ==> t[i].key != Some(key);
    }
  }

  /**
   * find_entry on a table that keeps the invariants: its answer holds `key`
   * exactly when the table stores `key`, and then holds its value; otherwise
   * the answer is the first slot without a key on the probe sequence, a
   * tombstone when one comes before the first never-used slot.
   */
  lemma ProbeFacts(s: seq<Entry>, hash: ObjRef -> nat, key: ObjRef)
    requires |s| > 0 && HasEmpty(s) && Unique(s) && Chained(s, hash)
    ensures var home := Home(hash, key, |s|); var r := Probe(s, key, home);
      FullUpTo(s, home, Dist(home, r, |s|)) &&
      (s[r].key == Some(key) <==> Lookup(s, key).Some?) &&
      (s[r].key == Some(key) ==> Lookup(s, key) == Some(s[r].value)) &&
      (s[r].key != Some(key) ==> s[r].key.None? && LiveUpTo(s, home, Dist(home, r, |s|)))
  {
    var home := Home(hash, key, |s|);
    var r := Probe(s, key, home);
    ProbeFromFacts(s, key, home, 0, None);
    if s[r].key == Some(key) {
      LookupAt(s, key, r);
    } else {
      forall j | 0 <= j < |s|
        ensures s[j].key != Some(key)
      {
      }
    }
  }

  /** A slot update that makes no slot never-used keeps every chain unbroken. */
  lemma ChainedUpdate(s: seq<Entry>, hash: ObjRef -> nat, i: nat, x: Entry)
    requires i < |s| && Chained(s, hash) && !IsEmpty(x)
    requires x.key.Some? ==> FullUpTo(s, Home(hash, x.key.value, |s|), Dist(Home(hash, x.key.value, |s|), i, |s|))
    ensures Chained(s[i := x], hash)
  {
    var t := s[i := x];
    forall j | 0 <= j < |t| && t[j].key.Some?
      ensures FullUpTo(t, Home(hash, t[j].key.value, |t|), Dist(Home(hash, t[j].key.value, |t|), j, |t|))
    {
      var home := Home(hash, t[j].key.value, |t|);
      assert FullUpTo(s, home, Dist(home, j, |s|));
    }
  }

  /**
   * hashtable_set's store at the probed slot: the table keeps its
   * invariants, `key` now maps to `value`, every other key keeps its value,
   * and one more slot is in use exactly when the slot was never used.
   */
  lemma InsertFacts(s: seq<Entry>, hash: ObjRef -> nat, key: ObjRef, value: Value)
    requires |s| > 0 && HasEmpty(s) && Unique(s) && Chained(s, hash)
    ensures var r := Probe(s, key, Home(hash, key, |s|)); var t := s[r := Entry(Some(key), value)];
      Unique(t) && Chained(t, hash) &&
      (forall k :: Lookup(t, k) == if k == key then Some(value) else Lookup(s, k)) &&
      Used(t) == Used(s) + (if IsEmpty(s[r]) then 1 else 0)
  {
    var r := Probe(s, key, Home(hash, key, |s|));
    var x := Entry(Some(key), value);
    var t := s[r := x];
    ProbeFacts(s, hash, key);
    assert forall j :: 0 <= j < |s| && j != r ==> s[j].key != Some(key);
    assert Unique(t);
    ChainedUpdate(s, hash, r, x);
    forall k
      ensures Lookup(t, k) == if k == key then Some(value) else Lookup(s, k)
    {
      if k == key {
        LookupAt(t, k, r);
      } else if exists i :: 0 <= i < |s| && s[i].key == Some(k) {
        var i :| 0 <= i < |s| && s[i].key == Some(k);
        LookupAt(s, k, i);
        LookupAt(t, k, i);
      } else {
        assert forall i :: 0 <= i < |t| ==> t[i].key != Some(k);
      }
    }
    UsedUpdate(s, r, x);
  }

  /**
   * hashtable_delete's tombstone at the slot holding `key`: the table keeps
   * its invariants, `key` is gone, every other key keeps its value, and the
   * number of slots in use is unchanged.
   */
  lemma DeleteFacts(s: seq<Entry>, hash: ObjRef -> nat, key: ObjRef)
    requires |s| > 0 && HasEmpty(s) && Unique(s) && Chained(s, hash) && Lookup(s, key).Some?
    ensures var r := Probe(s, key, Home(hash, key, |s|)); var t := s[r := Tombstone];
      s[r].key == Some(key) && Unique(t) && Chained(t, hash) &&
      (forall k :: Lookup(t, k) == if k == key then None else Lookup(s, k)) &&
      Used(t) == Used(s)
  {
    var r := Probe(s, key, Home(hash, key, |s|));
    var t := s[r := Tombstone];
    ProbeFacts(s, hash, key);
    ChainedUpdate(s, hash, r, Tombstone);
    forall k
      ensures Lookup(t, k) == if k == key then None else Lookup(s, k)
    {
      if k == key {
        assert forall i :: 0 <= i < |t| ==> t[i].key != Some(k);
      } else if exists i :: 0 <= i < |s| && s[i].key == Some(k) {
        var i :| 0 <= i < |s| && s[i].key == Some(k);
        LookupAt(s, k, i);
        LookupAt(t, k, i);
      } else {
        assert forall i :: 0 <= i < |t| ==> t[i].key != Some(k);
      }
    }
    UsedUpdate(s, r, Tombstone);
  }

  /**
   * One step of the rebuild in adjust_capacity: re-inserting the live entry
   * `src[i]` into the new table `t`, which holds exactly the live entries of
   * `src[..i]` and no tombstone, lands in a never-used slot, and afterwards
   * `t` holds exactly those of `src[..i + 1]`.
   */
  lemma RehashStep(src: seq<Entry>, i: nat, t: seq<Entry>, hash: ObjRef -> nat)
    requires i < |src| && Unique(src) && src[i].key.Some?
    requires |t| > 0 && Unique(t) && Chained(t, hash) && NoTombstones(t) && Used(t) < |t|
    requires forall k :: Lookup(t, k) == Lookup(src[..i], k)
    ensures var key := src[i].key.value; var r := Probe(t, key, Home(hash, key, |t|)); var t' := t[r := src[i]];
      IsEmpty(t[r]) && Unique(t') && Chained(t', hash) && NoTombstones(t') && Used(t') == Used(t) + 1 &&
      (forall k :: Lookup(t', k) == Lookup(src[..i + 1], k)) &&
      LiveCount(src[..i + 1]) == LiveCount(src[..i]) + 1
  {
    assert src[..i + 1][..i] == src[..i];
    var key := src[i].key.value;
    var r := Probe(t, key, Home(hash, key, |t|));
    UsedBound(t);
    FreshKey(src, i);
    InsertFacts(t, hash, key, src[i].value);
    ProbeFacts(t, hash, key);
    assert src[i] == Entry(Some(key), src[i].value);
    RehashLookup(src, i, t, t[r := src[i]]);
  }

  /** Rebuilding passes over a slot without a key: the live entries read so far are unchanged. */
  lemma SkipStep(src: seq<Entry>, i: nat, t: seq<Entry>)
    requires i < |src| && Unique(src) && src[i].key.None?
    requires forall k :: Lookup(t, k) == Lookup(src[..i], k)
    ensures forall k :: Lookup(t, k) == Lookup(src[..i + 1], k)
    ensures LiveCount(src[..i + 1]) == LiveCount(src[..i])
  {
    assert src[..i + 1][..i] == src[..i];
    assert src[..i + 1] == src[..i] + [src[i]];
    UniquePrefix(src, i + 1);
    forall k
      ensures Lookup(t, k) == Lookup(src[..i + 1], k)
    {
      LookupExtend(src[..i], src[i], k);
    }
  }

  /** A live entry's key does not occur earlier in a table without duplicate keys. */
  lemma FreshKey(src: seq<Entry>, i: nat)
    requires i < |src| && Unique(src) && src[i].key.Some?
    ensures Lookup(src[..i], src[i].key.value) == None
  {
    var p := src[..i];
    forall j | 0 <= j < |p|
      ensures p[j].key != src[i].key
    {
      assert p[j] == src[j];
    }
  }

  lemma RehashLookup(src: seq<Entry>, i: nat, t: seq<Entry>, t': seq<Entry>)
    requires i < |src| && Unique(src) && src[i].key.Some?
    requires forall k :: Lookup(t', k) == if k == src[i].key.value then Some(src[i].value) else Lookup(t, k)
    requires forall k :: Lookup(t, k) == Lookup(src[..i], k)
    ensures forall k :: Lookup(t', k) == Lookup(src[..i + 1], k)
  {
    assert src[..i + 1] == src[..i] + [src[i]];
    UniquePrefix(src, i + 1);
    forall k
      ensures Lookup(t', k) == Lookup(src[..i + 1], k)
    {
      LookupExtend(src[..i], src[i], k);
    }
  }

  /** One step of hashtable_copy: the merged view of the source prefix over the target's original contents. */
  ghost function Merged(p: seq<Entry>, base: seq<Entry>, key: ObjRef): Option<Value>
  {
    if Lookup(p, key).Some? then Lookup(p, key) else Lookup(base, key)
  }

  lemma CopyStep(src: seq<Entry>, i: nat, base: seq<Entry>, t: seq<Entry>, t': seq<Entry>)
    requires i < |src| && Unique(src)
    requires forall k :: Lookup(t, k) == Merged(src[..i], base, k)
    requires src[i].key.None? ==> forall k :: Lookup(t', k) == Lookup(t, k)
    requires src[i].key.Some? ==> forall k :: Lookup(t', k) == if k == src[i].key.value then Some(src[i].value) else Lookup(t, k)
    ensures forall k :: Lookup(t', k) == Merged(src[..i + 1], base, k)
  {
    assert src[..i + 1] == src[..i] + [src[i]];
    UniquePrefix(src, i + 1);
    forall k
      ensures Lookup(t', k) == Merged(src[..i + 1], base, k)
    {
      LookupExtend(src[..i], src[i], k);
    }
  }

  /*
   * find_entry as written (hashtable.c:16-34) never advances `index`: its
   * loop keeps examining the home slot. One pass of that loop body:
   */
  datatype ProbeState = Searching(index: nat, tombstone: Option<nat>) | Returned(slot: nat)

  function ProbeStepAsWritten(s: seq<Entry>, key: ObjRef, st: ProbeState): (next: ProbeState)
    requires st.Searching? ==> st.index < |s|
    ensures next.Searching? ==> st.Searching? && next.index == st.index
  {
    match st
    case Returned(_) => st
    case Searching(index, tombstone) =>
      var e := s[index];
      if e.key.None? then
        if e.value == NullVal then Returned(if tombstone.Some? then tombstone.value else index)
        else Searching(index, if tombstone.None? then Some(index) else tombstone)
      else if e.key == Some(key) then Returned(index)
      else Searching(index, tombstone)
  }

  /** The as-written loop after `n` passes. */
  function RunAsWritten(s: seq<Entry>, key: ObjRef, st: ProbeState, n: nat): ProbeState
    requires st.Searching? ==> st.index < |s|
    decreases n
  {
    if n == 0 then st else RunAsWritten(s, key, ProbeStepAsWritten(s, key, st), n - 1)
  }

  /**
   * When the home slot holds another key, the as-written loop is still
   * searching the same slot after any number of passes: find_entry never
   * returns.
   */
  lemma {:induction false} FindAsWrittenNeverReturns(s: seq<Entry>, key: ObjRef, home: nat, n: nat)
    requires home < |s| && s[home].key.Some? && s[home].key != Some(key)
    ensures RunAsWritten(s, key, Searching(home, None), n) == Searching(home, None)
  {
    if n > 0 {
      FindAsWrittenNeverReturns(s, key, home, n - 1);
    }
  }

  /**
   * A collision: in a table of capacity 8 whose hash is the handle itself,
   * key 1 sits in slot 1, the home slot of key 9. The as-written lookup of
   * key 9 never returns; the probing one answers the free slot 2.
   */
  lemma FindAsWrittenCollision()
    ensures var s := [EmptyEntry, Entry(Some(1), NumberVal(1.0))] + seq(6, _ => EmptyEntry);
      var home := Home(k => k, 9, |s|);
      home == 1 &&
      (forall n :: RunAsWritten(s, 9, Searching(home, None), n) == Searching(home, None)) &&
      Probe(s, 9, home) == 2
  {
    var s := [EmptyEntry, Entry(Some(1), NumberVal(1.0))] + seq(6, _ => EmptyEntry);
    assert |s| == 8 && s[0] == EmptyEntry && s[1].key == Some(1) && s[2] == EmptyEntry;
    assert Home(k => k, 9, |s|) == 1;
    assert ProbeFrom(s, 9, 1, 1, None) == 2;
    forall n: nat
      ensures RunAsWritten(s, 9, Searching(1, None), n) == Searching(1, None)
    {
      FindAsWrittenNeverReturns(s, 9, 1, n);
    }
  }

  /*
   * adjust_capacity as written (hashtable.c:36-63) reads the old entries at
   * indices below the NEW capacity, and bumps `count` once before the copy
   * and once per copied entry without resetting it.
   */
  datatype RebuildAsWritten = ReadsPastEnd(index: nat) | Rebuilt(count: int)

  function AdjustAsWritten(slots: seq<Entry>, count: int, newCapacity: nat): RebuildAsWritten
  {
    if newCapacity > |slots| then ReadsPastEnd(|slots|)
    else Rebuilt(count + 1 + LiveCount(slots[..newCapacity]))
  }

  /**
   * Its only caller grows the table, so the as-written rebuild always reads
   * one slot past the slots buffer; and even within bounds the count it leaves
   * exceeds the number of entries it stores.
   */
  lemma AdjustAsWrittenFaults(slots: seq<Entry>, count: nat)
    ensures AdjustAsWritten(slots, count, GrowCapacity(|slots|)) == ReadsPastEnd(|slots|)
    ensures AdjustAsWritten(slots, count, |slots|).Rebuilt? &&
      AdjustAsWritten(slots, count, |slots|).count > LiveCount(slots)
  {
    assert slots[..|slots|] == slots;
  }
}
