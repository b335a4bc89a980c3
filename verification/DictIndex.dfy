/** The slots of the dictionary: open addressing with tombstones, where each
    slot holds the index of a pair. */
module DictIndex {
  newtype Byte = x: int | 0 <= x < 256

  const EMPTY: nat := 0xffff_ffff
  const DELETED: nat := 0xffff_fffe
  const U32: nat := 0x1_0000_0000

  type Slot = x: nat | x < U32

  /** A byte string with its hash beside it. */
  datatype Blob = Blob(hash: nat, data: seq<Byte>)

  datatype Pair = Pair(key: Blob, value: Blob)

  function Xor(x: nat, y: nat): nat
    decreases x + y
  {
    if x == 0 then y
    else if y == 0 then x
    else (if x % 2 == y % 2 then 0 else 1) + 2 * Xor(x / 2, y / 2)
  }

  /** KH_Hash, in 32 bits. */
  function Hash(data: seq<Byte>): (h: nat)
    ensures h < U32
  {
    if data == [] then 5381
    else
      var h := Hash(data[..|data| - 1]);
      Xor(h * 33 % U32, data[|data| - 1] as nat) % U32
  }

  /** Blobs are made with the hash of their data. */
  predicate Made(b: Blob) { b.hash == Hash(b.data) }

  /** KH_BlobEqual */
  function BlobEqual(a: Blob, b: Blob): bool {
    a.hash == b.hash && |a.data| == |b.data| && a.data == b.data
  }

  lemma SameBlob(a: Blob, b: Blob)
    requires Made(a) && Made(b)
    ensures BlobEqual(a, b) <==> a.data == b.data
    ensures BlobEqual(a, b) <==> a == b
  {
  }

  /** Bitwise and. */
  function And(x: nat, y: nat): nat {
    if x == 0 || y == 0 then 0
    else (if x % 2 == 1 && y % 2 == 1 then 1 else 0) + 2 * And(x / 2, y / 2)
  }

  /** A power of two. */
  predicate Power(n: nat) {
    n == 1 || (n > 1 && n % 2 == 0 && Power(n / 2))
  }

  /** The mask of a power of two takes the remainder. */
  lemma {:induction false} AndMask(x: nat, n: nat)
    requires Power(n)
    ensures And(x, n - 1) < n
    ensures x < n ==> And(x, n - 1) == x
    ensures n <= x < 2 * n ==> And(x, n - 1) == x - n
    decreases n
  {
    if n > 1 && x > 0 {
      AndMask(x / 2, n / 2);
      assert (n - 1) % 2 == 1 && (n - 1) / 2 == n / 2 - 1;
    }
  }

  /** `t` steps on from `s` in a ring of `n`. */
  function Pos(s: nat, t: nat, n: nat): nat {
    if s + t < n then s + t else s + t - n
  }

  function Home(key: Blob, n: nat): nat
    requires n > 0
  {
    And(key.hash, n - 1)
  }

  predicate Live(slot: nat) { slot != EMPTY && slot != DELETED }

  /** The pair is found `off` steps from the home of its key, past no empty slot. */
  ghost predicate Reached(slots: seq<nat>, key: Blob, off: nat, p: nat)
    requires |slots| > 0
  {
    var n := |slots|;
    && Home(key, n) < n && off < n && slots[Pos(Home(key, n), off, n)] == p
    && forall t :: 0 <= t < off ==> NotEmpty(slots, Pos(Home(key, n), t, n))
  }

  predicate NotEmpty(slots: seq<nat>, x: nat) { x < |slots| && slots[x] != EMPTY }

  /** Every live slot is where its pair is found. */
  predicate Owned(slots: seq<nat>, ps: seq<Pair>, off: seq<nat>, x: nat)
    requires x < |slots| && |ps| == |off|
  {
    Live(slots[x]) ==>
      slots[x] < |ps| && x == Pos(Home(ps[slots[x]].key, |slots|), off[slots[x]], |slots|)
  }

  /** A bijection between live slots and pairs, with no gap on the way to any. */
  ghost predicate Indexed(slots: seq<nat>, ps: seq<Pair>, off: seq<nat>) {
    && Power(|slots|) && |ps| == |off| && |ps| < DELETED
    && (forall p :: 0 <= p < |ps| ==> Reached(slots, ps[p].key, off[p], p))
    && (forall x :: 0 <= x < |slots| ==> Owned(slots, ps, off, x))
  }

  ghost predicate Distinct(ps: seq<Pair>) {
    && (forall i :: 0 <= i < |ps| ==> Made(ps[i].key))
    && (forall i, j :: 0 <= i < j < |ps| ==> ps[i].key != ps[j].key)
  }

  lemma HomeFits(key: Blob, n: nat)
    requires Power(n)
    ensures n > 0 && Home(key, n) < n
  {
    AndMask(key.hash, n);
  }

  /** What a lookup has seen after `i` slots: none was empty, none held the key. */
  ghost predicate Missed(slots: seq<nat>, ps: seq<Pair>, key: Blob, i: nat)
    requires |slots| > 0
  {
    forall t :: 0 <= t < i ==> MissedAt(slots, ps, key, t)
  }

  predicate MissedAt(slots: seq<nat>, ps: seq<Pair>, key: Blob, t: nat)
    requires |slots| > 0
  {
    var x := Pos(Home(key, |slots|), t, |slots|);
    NotEmpty(slots, x) && (Live(slots[x]) ==> slots[x] < |ps| && ps[slots[x]].key != key)
  }

  /** A key that has been missed so far is further on, or nowhere. */
  lemma FurtherOn(slots: seq<nat>, ps: seq<Pair>, off: seq<nat>, key: Blob, i: nat, p: nat)
    requires Indexed(slots, ps, off) && p < |ps| && ps[p].key == key && Missed(slots, ps, key, i)
    ensures off[p] >= i && i < |slots| && NotEmpty(slots, Pos(Home(key, |slots|), i, |slots|))
  {
    assert Reached(slots, ps[p].key, off[p], p);
    assert off[p] < i ==> MissedAt(slots, ps, key, off[p]);
    assert i < off[p] ==> NotEmpty(slots, Pos(Home(key, |slots|), i, |slots|));
  }

  /** The first `t` slots from the home of a key are live. */
  ghost predicate Busy(slots: seq<nat>, s: nat, t: nat)
    requires |slots| > 0
  {
    forall u :: 0 <= u < t ==> BusyAt(slots, s, u)
  }

  predicate BusyAt(slots: seq<nat>, s: nat, u: nat)
    requires |slots| > 0
  {
    Pos(s, u, |slots|) < |slots| && Live(slots[Pos(s, u, |slots|)])
  }

  /** The values of the first `t` slots from `s` on. */
  function Seen(slots: seq<nat>, s: nat, t: nat): set<nat>
    requires |slots| > 0
  {
    if t == 0 then {}
    else
      var x := Pos(s, t - 1, |slots|);
      Seen(slots, s, t - 1) + if x < |slots| then {slots[x]} else {}
  }

  lemma {:induction false} SeenWhere(slots: seq<nat>, s: nat, t: nat, v: nat) returns (u: nat)
    requires |slots| > 0 && v in Seen(slots, s, t)
    ensures u < t && Pos(s, u, |slots|) < |slots| && slots[Pos(s, u, |slots|)] == v
  {
    var x := Pos(s, t - 1, |slots|);
    if x < |slots| && slots[x] == v {
      u := t - 1;
    } else {
      u := SeenWhere(slots, s, t - 1, v);
    }
  }

  /** Different slots hold different pairs. */
  lemma {:induction false} SeenCard(slots: seq<nat>, ps: seq<Pair>, off: seq<nat>, s: nat, t: nat)
    requires Indexed(slots, ps, off) && s < |slots| && t <= |slots| && Busy(slots, s, t)
    ensures |Seen(slots, s, t)| == t && forall v :: v in Seen(slots, s, t) ==> v < |ps|
  {
    var n := |slots|;
    if t > 0 {
      SeenCard(slots, ps, off, s, t - 1);
      var x := Pos(s, t - 1, n);
      assert BusyAt(slots, s, t - 1) && Owned(slots, ps, off, x);
      NotSeen(slots, ps, off, s, t - 1);
    }
  }

  lemma NotSeen(slots: seq<nat>, ps: seq<Pair>, off: seq<nat>, s: nat, t: nat)
    requires Indexed(slots, ps, off) && s < |slots| && t < |slots| && Busy(slots, s, t + 1)
    ensures slots[Pos(s, t, |slots|)] !in Seen(slots, s, t)
  {
    var v := slots[Pos(s, t, |slots|)];
    assert BusyAt(slots, s, t);
    if v in Seen(slots, s, t) {
      var u := SeenWhere(slots, s, t, v);
      OtherPair(slots, ps, off, s, u, t);
    }
  }

  lemma OtherPair(slots: seq<nat>, ps: seq<Pair>, off: seq<nat>, s: nat, u: nat, t: nat)
    requires Indexed(slots, ps, off) && s < |slots| && u < t < |slots| && BusyAt(slots, s, u) && BusyAt(slots, s, t)
    ensures slots[Pos(s, u, |slots|)] != slots[Pos(s, t, |slots|)]
  {
    assert Owned(slots, ps, off, Pos(s, u, |slots|)) && Owned(slots, ps, off, Pos(s, t, |slots|));
  }

  lemma {:induction false} FewBelow(vs: set<nat>, n: nat)
    requires forall v :: v in vs ==> v < n
    ensures |vs| <= n
  {
    if n == 0 {
      assert vs == {};
    } else {
      FewBelow(vs - {n - 1}, n - 1);
    }
  }

  /** There are not more live slots than pairs. */
  lemma BusyFew(slots: seq<nat>, ps: seq<Pair>, off: seq<nat>, s: nat, t: nat)
    requires Indexed(slots, ps, off) && s < |slots| && t <= |slots| && Busy(slots, s, t)
    ensures t <= |ps|
  {
    SeenCard(slots, ps, off, s, t);
    FewBelow(Seen(slots, s, t), |ps|);
  }

  /** A new pair goes to the first free slot from the home of its key. */
  lemma SlotInserted(slots: seq<nat>, ps: seq<Pair>, off: seq<nat>, pair: Pair, t: nat)
    requires Indexed(slots, ps, off) && |ps| + 1 < DELETED && t < |slots|
    requires Home(pair.key, |slots|) < |slots| && Busy(slots, Home(pair.key, |slots|), t)
    requires !Live(slots[Pos(Home(pair.key, |slots|), t, |slots|)])
    ensures Indexed(slots[Pos(Home(pair.key, |slots|), t, |slots|) := |ps|], ps + [pair], off + [t])
  {
    var n, h := |slots|, Home(pair.key, |slots|);
    var x := Pos(h, t, n);
    var slots', ps', off' := slots[x := |ps|], ps + [pair], off + [t];
    forall p | 0 <= p < |ps'|
      ensures Reached(slots', ps'[p].key, off'[p], p)
    {
      if p < |ps| {
        ReachedStill(slots, slots', ps[p].key, off[p], p, x);
      } else {
        forall u | 0 <= u < t
          ensures NotEmpty(slots', Pos(h, u, n))
        {
          assert BusyAt(slots, h, u);
        }
      }
    }
    forall y | 0 <= y < n
      ensures Owned(slots', ps', off', y)
    {
      assert Owned(slots, ps, off, y);
    }
  }

  lemma ReachedStill(slots: seq<nat>, slots': seq<nat>, key: Blob, off: nat, p: nat, x: nat)
    requires |slots| > 0 && x < |slots| && |slots'| == |slots| && Reached(slots, key, off, p) && Live(p)
    requires !Live(slots[x]) && slots'[x] != EMPTY && forall y :: 0 <= y < |slots| && y != x ==> slots'[y] == slots[y]
    ensures Reached(slots', key, off, p)
  {
    var n, h := |slots|, Home(key, |slots|);
    forall t | 0 <= t < off
      ensures NotEmpty(slots', Pos(h, t, n))
    {
      assert NotEmpty(slots, Pos(h, t, n));
    }
  }

  function Without<T>(s: seq<T>, i: nat): seq<T>
    requires i < |s|
  {
    s[..i] + s[i + 1..]
  }

  /** What removing pair `i` makes of a slot. */
  function Shifted(slot: nat, i: nat): nat {
    if !Live(slot) then slot
    else if slot > i then slot - 1
    else if slot == i then DELETED
    else slot
  }

  /** Removing a pair moves the later ones up and leaves a tombstone. */
  lemma SlotsRemoved(slots: seq<nat>, slots': seq<nat>, ps: seq<Pair>, off: seq<nat>, i: nat)
    requires Indexed(slots, ps, off) && i < |ps| && |slots'| == |slots|
    requires forall x :: 0 <= x < |slots| ==> slots'[x] == Shifted(slots[x], i)
    ensures Indexed(slots', Without(ps, i), Without(off, i))
  {
    var ps', off' := Without(ps, i), Without(off, i);
    forall p | 0 <= p < |ps'|
      ensures Reached(slots', ps'[p].key, off'[p], p)
    {
      var q := if p < i then p else p + 1;
      assert Reached(slots, ps[q].key, off[q], q);
      var n, h := |slots|, Home(ps[q].key, |slots|);
      forall t | 0 <= t < off[q]
        ensures NotEmpty(slots', Pos(h, t, n))
      {
        assert NotEmpty(slots, Pos(h, t, n)) && Owned(slots, ps, off, Pos(h, t, n));
      }
    }
    forall x | 0 <= x < |slots|
      ensures Owned(slots', ps', off', x)
    {
      assert Owned(slots, ps, off, x);
    }
  }

  lemma NothingIndexed(slots: seq<nat>)
    requires Power(|slots|) && forall x :: 0 <= x < |slots| ==> slots[x] == EMPTY
    ensures Indexed(slots, [], [])
  {
  }

  lemma {:induction false} SmallerPower(n: nat, m: nat)
    requires Power(n) && Power(m) && n < m
    ensures 2 * n <= m
    decreases n
  {
    if n > 1 { SmallerPower(n / 2, m / 2); }
  }

  lemma {:induction false} PowerTimes(a: nat, b: nat)
    requires Power(a) && Power(b)
    ensures Power(a * b)
    decreases a
  {
    if a > 1 {
      PowerTimes(a / 2, b);
      assert a * b == 2 * (a / 2 * b);
    }
  }
}
