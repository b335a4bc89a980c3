/** The insertion-ordered dictionary of byte strings. */
module Dictionary {
  import opened DictIndex

  datatype Option<T> = None | Some(value: T)

  /** The ordered map the dictionary stands for: its pairs, each key once. */
  type Map = seq<Pair>

  /** Where a key is, if it is there. */
  function Find(ps: Map, key: Blob): (r: Option<nat>)
    ensures r.Some? ==> r.value < |ps| && ps[r.value].key == key
    ensures r.None? ==> forall i :: 0 <= i < |ps| ==> ps[i].key != key
  {
    if ps == [] then None
    else if ps[|ps| - 1].key == key then Some(|ps| - 1)
    else Find(ps[..|ps| - 1], key)
  }

  function Lookup(ps: Map, key: Blob): Option<Blob> {
    var r := Find(ps, key);
    if r.None? then None else Some(ps[r.value].value)
  }

  /** A new key goes to the end, a known one keeps its place. */
  function Put(ps: Map, key: Blob, value: Blob): Map {
    var r := Find(ps, key);
    if r.None? then ps + [Pair(key, value)] else ps[r.value := Pair(ps[r.value].key, value)]
  }

  /** The others keep their order. */
  function Deleted(ps: Map, key: Blob): Map {
    var r := Find(ps, key);
    if r.None? then ps else Without(ps, r.value)
  }

  lemma FindIs(ps: Map, key: Blob, i: nat)
    requires Distinct(ps) && i < |ps| && ps[i].key == key
    ensures Find(ps, key) == Some(i)
  {
  }

  /** What a map says after a put: the new value for that key, the old ones for the others. */
  lemma PutLookup(ps: Map, key: Blob, value: Blob, other: Blob)
    requires Distinct(ps) && Made(key)
    ensures Distinct(Put(ps, key, value))
    ensures Lookup(Put(ps, key, value), other) == if other == key then Some(value) else Lookup(ps, other)
  {
    hide Find, Distinct;
    var qs, k, r := Put(ps, key, value), Find(ps, key), Find(ps, other);
    if k.None? {
      DistinctMore(ps, Pair(key, value));
    } else {
      ChangedKeys(ps, k.value, value);
    }
    if other == key {
      FindIs(qs, key, if k.None? then |ps| else k.value);
    } else if r.Some? {
      FindIs(qs, other, r.value);
    } else {
      NotIn(qs, other);
    }
  }

  lemma NotIn(ps: Map, key: Blob)
    requires forall i :: 0 <= i < |ps| ==> ps[i].key != key
    ensures Find(ps, key) == None
  {
  }

  lemma DeleteLookup(ps: Map, key: Blob, other: Blob)
    requires Distinct(ps)
    ensures Distinct(Deleted(ps, key))
    ensures Lookup(Deleted(ps, key), other) == if other == key then None else Lookup(ps, other)
  {
    var qs, k := Deleted(ps, key), Find(ps, key);
    var r := Find(ps, other);
    if k.Some? {
      DistinctWithout(ps, k.value);
      if other == key {
        assert forall i :: 0 <= i < |qs| ==> qs[i].key != key;
      } else if r.Some? {
        FindIs(qs, other, if r.value < k.value then r.value else r.value - 1);
      }
    }
  }

  /** Every pair keeps its place and its key, and no value changes but that of
      `key`; a key that was not there comes last. */
  lemma PutPlaces(ps: Map, key: Blob, value: Blob)
    requires Distinct(ps)
    ensures var qs := Put(ps, key, value);
      && |ps| <= |qs|
      && (forall i :: 0 <= i < |ps| ==>
            qs[i].key == ps[i].key && qs[i].value == if ps[i].key == key then value else ps[i].value)
      && (HasKey(ps, key) ==> |qs| == |ps|)
      && (!HasKey(ps, key) ==> qs == ps + [Pair(key, value)])
  {
    forall i | 0 <= i < |ps| && ps[i].key == key
      ensures Find(ps, key) == Some(i)
    {
      FindIs(ps, key, i);
    }
  }

  predicate HasKey(ps: Map, key: Blob) { exists i :: 0 <= i < |ps| && ps[i].key == key }

  /** The pairs before the deleted one, and then those behind it. */
  lemma DeletedPlaces(ps: Map, key: Blob)
    requires Distinct(ps)
    ensures forall k :: 0 <= k < |ps| && ps[k].key == key ==> Deleted(ps, key) == ps[..k] + ps[k + 1..]
    ensures !HasKey(ps, key) ==> Deleted(ps, key) == ps
  {
    forall k | 0 <= k < |ps| && ps[k].key == key
      ensures Deleted(ps, key) == ps[..k] + ps[k + 1..]
    {
      FindIs(ps, key, k);
    }
  }

  /** The value looked up is the one of the pair with that key. */
  lemma LookupPlaces(ps: Map, key: Blob)
    requires Distinct(ps)
    ensures forall k :: 0 <= k < |ps| && ps[k].key == key ==> Lookup(ps, key) == Some(ps[k].value)
    ensures !HasKey(ps, key) ==> Lookup(ps, key) == None
  {
    forall k | 0 <= k < |ps| && ps[k].key == key
      ensures Lookup(ps, key) == Some(ps[k].value)
    {
      FindIs(ps, key, k);
    }
  }

  lemma DistinctWithout(ps: Map, i: nat)
    requires Distinct(ps) && i < |ps|
    ensures Distinct(Without(ps, i))
  {
  }

  /** A place in the array of pairs; its pointers may be null. */
  datatype Entry = Null | Used(pair: Pair)

  /** Two pairs from 5/8 of the size on, the dictionary grows. */
  function Threshold(n: nat): nat { n / 2 + n / 8 }

  const MAX_SIZE: nat := 0x1_0000_0000

  ghost predicate Stored(es: seq<Entry>, ps: Map) {
    && |ps| <= |es|
    && (forall i :: 0 <= i < |ps| ==> es[i] == Used(ps[i]))
    && (forall i :: Threshold(|es|) <= i < |es| ==> es[i] == Null)
  }

  ghost predicate Sized(n: nat, count: nat) {
    (n == 0 || (n >= 8 && Power(n))) && n <= MAX_SIZE && count <= Threshold(n)
  }

  class Dict {
    var slots: array<Slot>
    var pairs: array<Entry>
    var dataCount: nat
    ghost var contents: Map
    ghost var off: seq<nat>

    ghost predicate Valid()
      reads this, slots, pairs
    {
      && slots.Length == pairs.Length && Sized(slots.Length, dataCount)
      && dataCount == |contents| && Distinct(contents) && Stored(pairs[..], contents)
      && (slots.Length > 0 ==> Indexed(slots[..], contents, off))
    }

    constructor ()
      ensures Valid() && contents == [] && fresh(slots) && fresh(pairs)
    {
      slots := new Slot[0];
      pairs := new Entry[0];
      dataCount, contents, off := 0, [], [];
    }

    /** KH_DictLookupIndex */
    method LookupIndex(key: Blob) returns (index: Option<nat>)
      requires Valid() && Made(key)
      ensures index == Find(contents, key)
    {
      hide Indexed;
      index := None;
      if slots.Length == 0 {
        return;
      }
      var n := slots.Length;
      IndexedFacts(slots[..], contents, off, key);
      var start := And(key.hash, n - 1);
      var i := 0;
      while i < n
        invariant 0 <= i <= n && Missed(slots[..], contents, key, i)
      {
        AndMask(start + i, n);
        var x := And(start + i, n - 1);
        assert x == Pos(Home(key, n), i, n);
        var slot := slots[x];
        SlotOwned(slots[..], contents, off, x);
        if slot == EMPTY {
          break;
        }
        if slot != DELETED {
          SameBlob(key, contents[slot].key);
          if BlobEqual(key, pairs[slot].pair.key) {
            FindIs(contents, key, slot);
            return Some(slot);
          }
        }
        assert MissedAt(slots[..], contents, key, i);
        i := i + 1;
      }
      NotThere(slots[..], contents, off, key, i);
    }

    /** KH_InsertSlot, into the slots of a table that has room. */
    method InsertSlot(table: array<Slot>, hash: nat, index: nat, ghost ps: Map, ghost offs: seq<nat>, ghost pair: Pair)
      returns (ghost t: nat)
      requires Indexed(table[..], ps, offs) && index == |ps| < table.Length && |ps| + 1 < DELETED
      requires hash == pair.key.hash
      modifies table
      ensures Indexed(table[..], ps + [pair], offs + [t])
    {
      hide Indexed;
      var n := table.Length;
      IndexedFacts(table[..], ps, offs, pair.key);
      var x := And(hash, n - 1);
      ghost var s := x;
      t := 0;
      while Live(table[x])
        invariant t < n && x == Pos(s, t, n) < n && Busy(table[..], s, t) && table[..] == old(table[..])
        decreases n - t
      {
        assert BusyAt(table[..], s, t);
        BusyFew(table[..], ps, offs, s, t + 1);
        AndMask(x + 1, n);
        x := And(x + 1, n - 1);
        t := t + 1;
      }
      SlotInserted(table[..], ps, offs, pair, t);
      table[x] := index;
    }

    /** The copy loop of KH_ResizeDict goes on to the first null pair, whatever
        the count is: above the threshold there is none. */
    method Copy(size: nat) returns (newSlots: array<Slot>, newPairs: array<Entry>, j: nat, ghost offs: seq<nat>)
      requires Valid() && dataCount >= Threshold(slots.Length) && Power(size) && |contents| < size
      ensures fresh(newSlots) && fresh(newPairs) && newSlots.Length == newPairs.Length == size && j == |contents|
      ensures Indexed(newSlots[..], contents, offs)
      ensures forall i :: 0 <= i < size ==> newPairs[i] == if i < |contents| then Used(contents[i]) else Null
    {
      hide Indexed, Stored, Distinct;
      ContentsFit(slots.Length, dataCount);
      newSlots := new Slot[size](_ => EMPTY);
      newPairs := new Entry[size](_ => Null);
      NothingIndexed(newSlots[..]);
      offs, j := [], 0;
      assert contents[..0] == [];
      while j < pairs.Length && pairs[j].Used?
        invariant 0 <= j <= |contents|
        invariant Indexed(newSlots[..], contents[..j], offs)
        invariant forall i :: 0 <= i < size ==> newPairs[i] == if i < j then Used(contents[i]) else Null
      {
        BeforeThreshold(pairs[..], contents, j);
        newPairs[j] := pairs[j];
        ghost var t := InsertSlot(newSlots, pairs[j].pair.key.hash, j, contents[..j], offs, contents[j]);
        offs := offs + [t];
        assert contents[..j] + [contents[j]] == contents[..j + 1];
        j := j + 1;
      }
      AllCopied(pairs[..], contents, j);
      assert contents[..j] == contents;
    }

    /** KH_ResizeDict */
    method Resize()
      requires Valid() && dataCount >= Threshold(slots.Length) && slots.Length < MAX_SIZE
      modifies this
      ensures Valid() && contents == old(contents) && dataCount == old(dataCount) && fresh(slots) && fresh(pairs)
      ensures slots.Length == if old(slots.Length) == 0 then 8 else 2 * old(slots.Length)
      ensures dataCount < Threshold(slots.Length)
    {
      hide Indexed, Distinct;
      var size := if slots.Length != 0 then 2 * slots.Length else 8;
      DoubledSize(slots.Length);
      var newSlots, newPairs, j;
      ghost var offs;
      newSlots, newPairs, j, offs := Copy(size);
      slots, pairs, dataCount, off := newSlots, newPairs, j, offs;
    }

    /** KH_DictInsert, for a key that is not there. */
    method Insert(key: Blob, value: Blob)
      requires Valid() && Made(key) && Find(contents, key).None? && Room(|contents|)
      modifies this, slots, pairs
      ensures Valid() && contents == old(contents) + [Pair(key, value)]
      ensures fresh(slots) || slots == old(slots)
      ensures fresh(pairs) || pairs == old(pairs)
    {
      hide Indexed, Distinct, Stored, Sized;
      RoomLeft(slots.Length, dataCount);
      if dataCount >= slots.Length / 2 + slots.Length / 8 {
        Resize();
      }
      ghost var pair := Pair(key, value);
      RoomNow(slots.Length, dataCount);
      StoredMore(pairs[..], contents, pair);
      DistinctMore(contents, pair);
      pairs[dataCount] := Used(Pair(key, value));
      ghost var t := InsertSlot(slots, key.hash, dataCount, contents, off, pair);
      off := off + [t];
      contents := contents + [pair];
      dataCount := dataCount + 1;
    }

    /** KH_DictChange */
    method Change(index: nat, value: Blob)
      requires Valid() && index < dataCount
      modifies this, pairs
      ensures Valid() && contents == old(contents)[index := Pair(old(contents)[index].key, value)]
      ensures slots == old(slots) && pairs == old(pairs)
    {
      hide Indexed, Distinct, Stored;
      StoredAt(pairs[..], contents, index);
      StoredChanged(pairs[..], contents, index, value);
      ChangedKeys(contents, index, value);
      if slots.Length > 0 { IndexedChanged(slots[..], contents, off, index, value); }
      var key := pairs[index].pair.key;
      pairs[index] := Used(Pair(key, value));
      contents := contents[index := Pair(key, value)];
    }

    /** KH_DictRemove. The last pair stays behind at its old place. */
    method Remove(index: nat)
      requires Valid() && index < dataCount
      modifies this, slots, pairs
      ensures Valid() && contents == Without(old(contents), index)
      ensures slots == old(slots) && pairs == old(pairs)
    {
      hide Indexed, Distinct, Stored, Sized;
      RoomUsed(slots.Length, dataCount);
      ShiftPairs(index);
      dataCount := dataCount - 1;
      ghost var was := slots[..];
      ShiftSlots(index);
      IndexedFacts(was, contents, off, contents[index].key);
      SlotsRemoved(was, slots[..], contents, off, index);
      DistinctWithout(contents, index);
      contents, off := Without(contents, index), Without(off, index);
    }

    /** Pairs behind the removed one move up. */
    method ShiftPairs(index: nat)
      requires pairs.Length >= dataCount == |contents| > index && Stored(pairs[..], contents)
      requires |contents| <= Threshold(pairs.Length)
      modifies pairs
      ensures Stored(pairs[..], Without(contents, index))
    {
      var i := index + 1;
      while i < dataCount
        invariant index < i <= dataCount
        invariant forall k :: 0 <= k < pairs.Length ==>
          pairs[k] == if index <= k < i - 1 then old(pairs[k + 1]) else old(pairs[k])
      {
        pairs[i - 1] := pairs[i];
        i := i + 1;
      }
    }

    method ShiftSlots(index: nat)
      modifies slots
      ensures forall x :: 0 <= x < slots.Length ==> slots[x] == Shifted(old(slots[x]), index)
    {
      var i := 0;
      while i < slots.Length
        invariant 0 <= i <= slots.Length
        invariant forall x :: 0 <= x < slots.Length ==> slots[x] == if x < i then Shifted(old(slots[x]), index) else old(slots[x])
      {
        if slots[i] == DELETED || slots[i] == EMPTY {
        } else if slots[i] > index {
          slots[i] := slots[i] - 1;
        } else if slots[i] == index {
          slots[i] := DELETED;
        }
        i := i + 1;
      }
    }

    /** KH_DictSet */
    method Set(key: Blob, value: Blob)
      requires Valid() && Made(key) && Room(|contents|)
      modifies this, slots, pairs
      ensures Valid() && contents == Put(old(contents), key, value)
      ensures |old(contents)| <= |contents|
      ensures forall i :: 0 <= i < |old(contents)| ==>
                && contents[i].key == old(contents)[i].key
                && contents[i].value == if contents[i].key == key then value else old(contents)[i].value
      ensures HasKey(old(contents), key) ==> |contents| == |old(contents)|
      ensures !HasKey(old(contents), key) ==> contents == old(contents) + [Pair(key, value)]
      ensures fresh(slots) || slots == old(slots)
      ensures fresh(pairs) || pairs == old(pairs)
    {
      hide Indexed, Distinct, Stored, Sized, HasKey;
      PutPlaces(contents, key, value);
      var index := LookupIndex(key);
      if index.None? {
        Insert(key, value);
      } else {
        Change(index.value, value);
      }
    }

    /** KH_DictGet */
    method Get(key: Blob) returns (value: Option<Blob>)
      requires Valid() && Made(key)
      ensures value == Lookup(contents, key)
      ensures forall k :: 0 <= k < |contents| && contents[k].key == key ==> value == Some(contents[k].value)
      ensures !HasKey(contents, key) ==> value == None
    {
      hide Indexed, Distinct, Sized, HasKey;
      LookupPlaces(contents, key);
      var index := LookupIndex(key);
      value := if index.None? then None else Some(pairs[index.value].pair.value);
    }

    /** KH_DictHas */
    method Has(key: Blob) returns (has: bool)
      requires Valid() && Made(key)
      ensures has <==> HasKey(contents, key)
    {
      var index := LookupIndex(key);
      has := index.Some?;
    }

    /** KH_DictDelete */
    method Delete(key: Blob) returns (found: bool)
      requires Valid() && Made(key)
      modifies this, slots, pairs
      ensures Valid() && contents == Deleted(old(contents), key)
      ensures found <==> HasKey(old(contents), key)
      ensures forall k :: 0 <= k < |old(contents)| && old(contents)[k].key == key ==>
                contents == old(contents)[..k] + old(contents)[k + 1..]
      ensures !HasKey(old(contents), key) ==> contents == old(contents)
      ensures slots == old(slots) && pairs == old(pairs)
    {
      hide Indexed, Distinct, Stored, Sized;
      DeletedPlaces(contents, key);
      var index := LookupIndex(key);
      found := index.Some?;
      if found {
        Remove(index.value);
      }
    }

    /** KH_DictKeyIter and KH_DictValueIter: the pairs in order, then nothing. */
    method At(index: nat) returns (pair: Option<Pair>)
      requires Valid()
      ensures pair == if index < |contents| then Some(contents[index]) else None
    {
      pair := if index < dataCount then Some(pairs[index].pair) else None;
    }
  }

  lemma StoredAt(es: seq<Entry>, ps: Map, index: nat)
    requires Stored(es, ps) && index < |ps|
    ensures index < |es| && es[index] == Used(ps[index])
  {
  }

  lemma StoredChanged(es: seq<Entry>, ps: Map, index: nat, value: Blob)
    requires Stored(es, ps) && index < |ps| && |ps| <= Threshold(|es|)
    ensures var pair := Pair(ps[index].key, value); Stored(es[index := Used(pair)], ps[index := pair])
  {
  }

  lemma ChangedKeys(ps: Map, index: nat, value: Blob)
    requires Distinct(ps) && index < |ps|
    ensures Distinct(ps[index := Pair(ps[index].key, value)])
  {
  }

  lemma IndexedChanged(slots: seq<nat>, ps: Map, off: seq<nat>, index: nat, value: Blob)
    requires Indexed(slots, ps, off) && index < |ps|
    ensures Indexed(slots, ps[index := Pair(ps[index].key, value)], off)
  {
    var qs := ps[index := Pair(ps[index].key, value)];
    forall p | 0 <= p < |qs|
      ensures Reached(slots, qs[p].key, off[p], p)
    {
      assert Reached(slots, ps[p].key, off[p], p);
    }
    forall x | 0 <= x < |slots|
      ensures Owned(slots, qs, off, x)
    {
      assert Owned(slots, ps, off, x);
    }
  }

  lemma RoomUsed(n: nat, count: nat)
    requires Sized(n, count) && count > 0
    ensures n > 0 && count <= Threshold(n) <= n && Sized(n, count - 1)
  {
  }

  lemma StoredMore(es: seq<Entry>, ps: Map, pair: Pair)
    requires Stored(es, ps) && |ps| < Threshold(|es|) && |ps| < |es|
    ensures Stored(es[|ps| := Used(pair)], ps + [pair])
  {
  }

  lemma DistinctMore(ps: Map, pair: Pair)
    requires Distinct(ps) && Made(pair.key) && Find(ps, pair.key).None?
    ensures Distinct(ps + [pair])
  {
  }

  lemma ContentsFit(n: nat, count: nat)
    requires Sized(n, count)
    ensures count + 1 < DELETED
  {
  }

  /** The largest table holds this many pairs. */
  predicate Room(count: nat) { count < Threshold(MAX_SIZE) }

  lemma IndexedFacts(slots: seq<nat>, ps: Map, off: seq<nat>, key: Blob)
    requires Indexed(slots, ps, off)
    ensures Power(|slots|) && |slots| > 0 && Home(key, |slots|) < |slots| && |ps| == |off| && |ps| < DELETED
  {
    HomeFits(key, |slots|);
  }

  lemma SlotOwned(slots: seq<nat>, ps: Map, off: seq<nat>, x: nat)
    requires Indexed(slots, ps, off) && x < |slots|
    ensures Live(slots[x]) ==> slots[x] < |ps|
  {
    assert Owned(slots, ps, off, x);
  }

  lemma NotThere(slots: seq<nat>, ps: Map, off: seq<nat>, key: Blob, i: nat)
    requires Indexed(slots, ps, off) && i <= |slots| && Missed(slots, ps, key, i)
    requires i < |slots| ==> !NotEmpty(slots, Pos(Home(key, |slots|), i, |slots|))
    ensures Find(ps, key) == None
  {
    var r := Find(ps, key);
    if r.Some? { FurtherOn(slots, ps, off, key, i, r.value); }
  }

  lemma DoubledSize(n: nat)
    requires n == 0 || (n >= 8 && Power(n))
    ensures var m := if n != 0 then 2 * n else 8;
            Power(m) && Threshold(n) < Threshold(m) <= m && (n < MAX_SIZE ==> m <= MAX_SIZE)
  {
    assert Power(8) by { assert Power(2) && Power(4); }
    if n != 0 {
      assert 2 * n / 2 == n;
      MaxSize();
      if n < MAX_SIZE { SmallerPower(n, MAX_SIZE); }
    }
  }

  lemma MaxSize()
    ensures Power(MAX_SIZE)
  {
    assert Power(16) by { assert Power(2) && Power(4); }
    PowerTimes(16, 16);
    PowerTimes(256, 256);
    PowerTimes(65536, 65536);
  }

  /** When the table grows, the pairs up to the first null one are those in use:
      a pair left behind by a removal lies below the threshold, and so does
      every pair that is not in use. */
  lemma BeforeThreshold(es: seq<Entry>, ps: Map, j: nat)
    requires Stored(es, ps) && |ps| >= Threshold(|es|) && j < |es| && es[j].Used?
    ensures j < |ps| && es[j] == Used(ps[j])
  {
  }

  lemma AllCopied(es: seq<Entry>, ps: Map, j: nat)
    requires Stored(es, ps) && j <= |ps| && (j == |es| || !es[j].Used?)
    ensures j == |ps|
  {
  }

  lemma RoomLeft(n: nat, count: nat)
    requires Sized(n, count) && Room(count)
    ensures count >= Threshold(n) ==> n < MAX_SIZE
  {
  }

  lemma RoomNow(n: nat, count: nat)
    requires Sized(n, count) && count < Threshold(n)
    ensures n > 0 && count < n && count + 1 < DELETED && Sized(n, count + 1)
  {
  }
}
