/** The registry's file: a dictionary as bytes. */
module Registry {
  import opened DictIndex
  import opened Dictionary

  /** 'K', 'N', 'O', 'T', lowest byte first. */
  const MAGIC: nat := 0x544f_4e4b

  /** WriteInt: four bytes of the number's low 32 bits, lowest first. */
  function IntBytes(x: nat): (b: seq<Byte>)
    ensures |b| == 4
  {
    [(x % 256) as Byte, (x / 256 % 256) as Byte, (x / 256 / 256 % 256) as Byte, (x / 256 / 256 / 256 % 256) as Byte]
  }

  function IntAt(file: seq<Byte>, at: nat): (x: nat)
    requires at + 4 <= |file|
    ensures x < U32
  {
    file[at] as nat + 256 * file[at + 1] as nat + 65536 * file[at + 2] as nat + 16777216 * file[at + 3] as nat
  }

  lemma IntBack(x: nat)
    ensures IntAt(IntBytes(x), 0) == x % U32
  {
    var a := x / 256;
    var b := a / 256;
    var c := b / 256;
    assert x == IntAt(IntBytes(x), 0) + U32 * (c / 256);
  }

  lemma IntAtSlice(file: seq<Byte>, at: nat, b: seq<Byte>)
    requires at + 4 <= |file| && |b| == 4 && file[at..at + 4] == b
    ensures IntAt(file, at) == IntAt(b, 0)
  {
    assert b[0] == file[at] && b[1] == file[at + 1] && b[2] == file[at + 2] && b[3] == file[at + 3];
  }

  function BlobBytes(b: Blob): seq<Byte> { IntBytes(|b.data|) + b.data }

  function Records(ps: Map): seq<Byte> {
    if ps == [] then []
    else Records(ps[..|ps| - 1]) + BlobBytes(ps[|ps| - 1].key) + BlobBytes(ps[|ps| - 1].value)
  }

  /** The whole file. */
  function Encoded(ps: Map): seq<Byte> { IntBytes(MAGIC) + IntBytes(|ps|) + Records(ps) }

  datatype Read<T> = Short | Got(value: T, next: nat)

  /** A length and as many bytes. */
  function BlobAt(file: seq<Byte>, at: nat): (r: Read<Blob>)
    ensures r.Got? ==> at <= r.next <= |file| && Made(r.value)
  {
    if at + 4 > |file| then Short
    else
      var n := IntAt(file, at);
      if at + 4 + n > |file| then Short
      else
        var data := file[at + 4..at + 4 + n];
        Got(Blob(Hash(data), data), at + 4 + n)
  }

  function PairAt(file: seq<Byte>, at: nat): (r: Read<Pair>)
    ensures r.Got? ==> at <= r.next <= |file| && Made(r.value.key) && Made(r.value.value)
  {
    var k := BlobAt(file, at);
    if k.Short? then Short
    else
      var v := BlobAt(file, k.next);
      if v.Short? then Short else Got(Pair(k.value, v.value), v.next)
  }

  /** The first `n` records of the file. */
  function PairsAt(file: seq<Byte>, n: nat): (r: Read<Map>)
    requires |file| >= 8
    ensures r.Got? ==> 8 <= r.next <= |file| && |r.value| == n
  {
    if n == 0 then Got([], 8)
    else
      var before := PairsAt(file, n - 1);
      if before.Short? then Short
      else
        var p := PairAt(file, before.next);
        if p.Short? then Short else Got(before.value + [p.value], p.next)
  }

  /** The records put into a map one after the other. */
  function PutAll(ps: Map, more: Map): Map {
    if more == [] then ps
    else Put(PutAll(ps, more[..|more| - 1]), more[|more| - 1].key, more[|more| - 1].value)
  }

  lemma {:induction false} PutAllNew(more: Map)
    requires Distinct(more)
    ensures PutAll([], more) == more
  {
    hide Distinct, Put;
    if more != [] {
      var n := |more| - 1;
      DistinctFront(more);
      PutAllNew(more[..n]);
      PutNew(more[..n], more[n]);
      assert more == more[..n] + [more[n]];
    }
  }

  lemma DistinctFront(ps: Map)
    requires Distinct(ps) && ps != []
    ensures Distinct(ps[..|ps| - 1]) && forall i :: 0 <= i < |ps| - 1 ==> ps[i].key != ps[|ps| - 1].key
  {
  }

  lemma PutNew(ps: Map, p: Pair)
    requires forall i :: 0 <= i < |ps| ==> ps[i].key != p.key
    ensures Put(ps, p.key, p.value) == ps + [p]
  {
    NotIn(ps, p.key);
  }

  /** Lengths that fit the file's 32 bits. */
  predicate Fits(b: Blob) { |b.data| < U32 && Made(b) }

  predicate AllFit(ps: Map) {
    |ps| < U32 && forall i :: 0 <= i < |ps| ==> Fits(ps[i].key) && Fits(ps[i].value)
  }

  lemma BlobBack(before: seq<Byte>, b: Blob, after: seq<Byte>)
    requires Fits(b)
    ensures BlobAt(before + BlobBytes(b) + after, |before|) == Got(b, |before| + 4 + |b.data|)
  {
    hide IntAt, IntBytes;
    var file, at := before + BlobBytes(b) + after, |before|;
    IntAtSlice(file, at, IntBytes(|b.data|));
    IntBack(|b.data|);
    assert IntAt(file, at) == |b.data|;
    assert file[at + 4..at + 4 + |b.data|] == b.data;
  }

  lemma {:induction false} RecordsBack(ps: Map, head: seq<Byte>, after: seq<Byte>)
    requires |head| == 8 && AllFit(ps)
    ensures PairsAt(head + Records(ps) + after, |ps|) == Got(ps, 8 + |Records(ps)|)
  {
    hide BlobAt, BlobBytes, AllFit;
    if ps != [] {
      var n := |ps| - 1;
      var k, v := BlobBytes(ps[n].key), BlobBytes(ps[n].value);
      LastFits(ps);
      RecordsBack(ps[..n], head, k + v + after);
      RecordSplit(head, Records(ps[..n]), k, v, after);
      PairBack(head + Records(ps[..n]), ps[n], after);
      assert ps[..n] + [ps[n]] == ps;
    }
  }

  lemma RecordSplit(head: seq<Byte>, r: seq<Byte>, k: seq<Byte>, v: seq<Byte>, after: seq<Byte>)
    ensures head + (r + k + v) + after == head + r + (k + v + after)
    ensures head + (r + k + v) + after == head + r + k + v + after
  {
  }

  lemma PairBack(front: seq<Byte>, p: Pair, after: seq<Byte>)
    requires Fits(p.key) && Fits(p.value)
    ensures PairAt(front + BlobBytes(p.key) + BlobBytes(p.value) + after, |front|)
         == Got(p, |front| + |BlobBytes(p.key)| + |BlobBytes(p.value)|)
  {
    hide BlobAt, BlobBytes;
    var k, v := BlobBytes(p.key), BlobBytes(p.value);
    assert front + k + v + after == front + k + (v + after);
    BlobBack(front, p.key, v + after);
    BlobBack(front + k, p.value, after);
    BlobLength(p.key);
    BlobLength(p.value);
  }

  lemma LastFits(ps: Map)
    requires AllFit(ps) && ps != []
    ensures AllFit(ps[..|ps| - 1]) && Fits(ps[|ps| - 1].key) && Fits(ps[|ps| - 1].value)
  {
  }

  lemma BlobLength(b: Blob)
    ensures |BlobBytes(b)| == 4 + |b.data|
  {
  }

  /** What a file says: nothing, when it is not a registry. */
  predicate Recognised(file: seq<Byte>) { |file| >= 4 && IntAt(file, 0) == MAGIC }

  /** A file that holds all that it announces; the loader does not cope with others. */
  predicate Whole(file: seq<Byte>) {
    |file| >= 4 && (Recognised(file) ==> |file| >= 8 && PairsAt(file, IntAt(file, 4)).Got?)
  }

  /** Reading back what was written gives the same ordered map. */
  lemma EncodedBack(ps: Map)
    requires AllFit(ps)
    ensures var file := Encoded(ps);
            Recognised(file) && Whole(file) && IntAt(file, 4) == |ps| && PairsAt(file, |ps|).value == ps
  {
    hide IntAt, IntBytes, AllFit, PairsAt, Records;
    var file := Encoded(ps);
    var head := IntBytes(MAGIC) + IntBytes(|ps|);
    assert file == head + Records(ps) + [];
    RecordsBack(ps, head, []);
    IntBack(MAGIC);
    IntBack(|ps|);
    CountFits(ps);
    IntAtSlice(file, 0, IntBytes(MAGIC));
    IntAtSlice(file, 4, IntBytes(|ps|));
  }

  /** Where the record of a pair begins. */
  function Start(ps: Map, i: nat): (at: nat)
    requires i <= |ps|
  {
    if i == 0 then 8 else Start(ps, i - 1) + 8 + |ps[i - 1].key.data| + |ps[i - 1].value.data|
  }

  /** The four bytes at `at` are those of `x`, the lowest first. */
  predicate IntegerAt(file: seq<Byte>, at: nat, x: nat) {
    && at + 4 <= |file|
    && file[at] as nat == x % 0x100 && file[at + 1] as nat == x / 0x100 % 0x100
    && file[at + 2] as nat == x / 0x1_0000 % 0x100 && file[at + 3] as nat == x / 0x100_0000 % 0x100
  }

  lemma IntBytesAt(x: nat)
    ensures IntegerAt(IntBytes(x), 0, x)
  {
    assert x / 256 / 256 == x / 0x1_0000;
    assert x / 256 / 256 / 256 == x / 0x100_0000;
  }

  lemma {:induction false} RecordsLength(ps: Map, i: nat)
    requires i <= |ps|
    ensures 8 + |Records(ps[..i])| == Start(ps, i)
  {
    if i > 0 {
      RecordsLength(ps, i - 1);
      assert ps[..i][..i - 1] == ps[..i - 1];
    }
  }

  lemma {:induction false} RecordsFirst(ps: Map, i: nat, n: nat) returns (rest: seq<Byte>)
    requires i <= n <= |ps|
    ensures Records(ps[..n]) == Records(ps[..i]) + rest
  {
    hide Records, BlobBytes, NoneEmpty;
    rest := [];
    if i < n {
      var r := RecordsFirst(ps, i, n - 1);
      RecordsNext(ps, n - 1);
      var k, v := BlobBytes(ps[n - 1].key), BlobBytes(ps[n - 1].value);
      rest := r + k + v;
      assert Records(ps[..i]) + r + k + v == Records(ps[..i]) + rest;
    }
  }

  /** Each pair has its place in the file: a length, the key, a length, the value. */
  lemma RecordPlace(ps: Map, i: nat)
    requires i < |ps|
    ensures var file, at, p := Encoded(ps), Start(ps, i), ps[i];
      var mid, end := at + 4 + |p.key.data|, at + 8 + |p.key.data| + |p.value.data|;
      && end == Start(ps, i + 1) <= Start(ps, |ps|) == |file|
      && IntegerAt(file, at, |p.key.data|) && file[at + 4..mid] == p.key.data
      && IntegerAt(file, mid, |p.value.data|) && file[mid + 4..end] == p.value.data
  {
    hide IntBytes, Records, BlobBytes, NoneEmpty, IntegerAt;
    var p := ps[i];
    var n, k := IntBytes(MAGIC) + IntBytes(|ps|), Records(ps[..i]);
    var rest := RecordsFirst(ps, i + 1, |ps|);
    assert ps[..|ps|] == ps;
    RecordsNext(ps, i);
    RecordsLength(ps, i);
    RecordsLength(ps, |ps|);
    BlobLength(p.key);
    BlobLength(p.value);
    BlobPlace(n + k, p.key, BlobBytes(p.value) + rest);
    BlobPlace(n + k + BlobBytes(p.key), p.value, rest);
    Regroup(n, k, BlobBytes(p.key), BlobBytes(p.value), rest);
  }

  lemma Regroup(n: seq<Byte>, k: seq<Byte>, key: seq<Byte>, value: seq<Byte>, rest: seq<Byte>)
    ensures n + (k + key + value + rest) == n + k + key + (value + rest) == n + k + key + value + rest
  {
  }

  lemma BlobPlace(front: seq<Byte>, b: Blob, rest: seq<Byte>)
    ensures var file, at := front + BlobBytes(b) + rest, |front|;
      var end := at + 4 + |b.data|;
      IntegerAt(file, at, |b.data|) && end <= |file| && file[at + 4..end] == b.data
  {
    hide IntBytes;
    IntBytesAt(|b.data|);
    Inside(front, IntBytes(|b.data|), b.data, rest);
    assert front + BlobBytes(b) + rest == front + IntBytes(|b.data|) + b.data + rest;
  }

  lemma Inside(front: seq<Byte>, k: seq<Byte>, data: seq<Byte>, rest: seq<Byte>)
    requires |k| == 4
    ensures var file, at := front + k + data + rest, |front|;
      && (forall j :: 0 <= j < 4 ==> file[at + j] == k[j])
      && file[at + 4..at + 4 + |data|] == data
  {
  }

  lemma CountFits(ps: Map)
    requires AllFit(ps)
    ensures |ps| % U32 == |ps|
  {
  }

  predicate NoneEmpty(ps: Map) {
    forall i :: 0 <= i < |ps| ==> ps[i].key.data != [] && ps[i].value.data != []
  }

  /** SaveDict, every write reaching the file. Writing nothing counts as an
      error, so a dictionary with an empty key or value is never saved. */
  method Save(dict: Dict) returns (ok: bool, file: seq<Byte>)
    requires dict.Valid()
    ensures file == Encoded(dict.contents)
    ensures |file| >= 8 && file[..4] == [0x4b, 0x4e, 0x4f, 0x54] && IntegerAt(file, 4, |dict.contents|)
    ensures ok <==> NoneEmpty(dict.contents)
  {
    hide IntBytes, Records, NoneEmpty, Stored, Distinct, Indexed, Sized;
    var error := false;
    file := IntBytes(MAGIC);
    var length := dict.dataCount;
    file := file + IntBytes(length);
    ghost var ps := dict.contents;
    var i := 0;
    assert ps[..0] == [];
    RecordsNone();
    while i < length
      invariant 0 <= i <= length == |ps|
      invariant file == IntBytes(MAGIC) + IntBytes(length) + Records(ps[..i])
      invariant error <==> !NoneEmpty(ps[..i])
    {
      var pair := dict.At(i);
      RecordsNext(ps, i);
      file := file + IntBytes(|pair.value.key.data|) + pair.value.key.data;
      error := error || |pair.value.key.data| == 0;
      file := file + IntBytes(|pair.value.value.data|) + pair.value.value.data;
      error := error || |pair.value.value.data| == 0;
      i := i + 1;
    }
    assert ps[..i] == ps;
    ok := !error;
    HeaderIs(length);
  }

  lemma HeaderIs(count: nat)
    ensures IntBytes(MAGIC) == [0x4b, 0x4e, 0x4f, 0x54] && IntegerAt(IntBytes(count), 0, count)
  {
    IntBytesAt(count);
  }

  lemma RecordsNone()
    ensures Records([]) == [] && NoneEmpty([])
  {
  }

  lemma RecordsNext(ps: Map, i: nat)
    requires i < |ps|
    ensures Records(ps[..i + 1]) == Records(ps[..i]) + BlobBytes(ps[i].key) + BlobBytes(ps[i].value)
    ensures NoneEmpty(ps[..i + 1]) <==> NoneEmpty(ps[..i]) && ps[i].key.data != [] && ps[i].value.data != []
  {
    assert ps[..i + 1][..i] == ps[..i];
    assert ps[..i + 1] == ps[..i] + [ps[i]];
  }

  /** LoadDict on a file that is whole. */
  method Load(dict: Dict, file: seq<Byte>) returns (ok: bool)
    requires dict.Valid() && Whole(file)
    requires Recognised(file) ==> |dict.contents| + IntAt(file, 4) <= Threshold(MAX_SIZE)
    modifies dict, dict.slots, dict.pairs
    ensures dict.Valid() && (ok <==> Recognised(file))
    ensures dict.contents
         == if ok then PutAll(old(dict.contents), PairsAt(file, IntAt(file, 4)).value) else old(dict.contents)
  {
    hide PairAt, Dict.Valid, Stored, Indexed, Distinct, Sized;
    ok := IntAt(file, 0) == MAGIC;
    if !ok { return; }
    var length, at, i := IntAt(file, 4), 8, 0;
    ghost var was := dict.contents;
    while i < length
      invariant 0 <= i <= length && dict.Valid()
      invariant fresh(dict.slots) || dict.slots == old(dict.slots)
      invariant fresh(dict.pairs) || dict.pairs == old(dict.pairs)
      invariant PairsAt(file, i).Got? && at == PairsAt(file, i).next
      invariant dict.contents == PutAll(was, PairsAt(file, i).value) && |dict.contents| <= |was| + i
    {
      EarlierPairs(file, i + 1, length);
      var pair := PairAt(file, at);
      dict.Set(pair.value.key, pair.value.value);
      assert (PairsAt(file, i).value + [pair.value])[..i] == PairsAt(file, i).value;
      at := pair.next;
      i := i + 1;
    }
  }

  lemma {:induction false} EarlierPairs(file: seq<Byte>, i: nat, n: nat)
    requires |file| >= 8 && PairsAt(file, n).Got? && i <= n
    ensures PairsAt(file, i).Got?
  {
    if i < n { EarlierPairs(file, i, n - 1); }
  }

  /** A dictionary that can be saved is loaded again as it was, keys in order. */
  method SaveAndLoad(dict: Dict, other: Dict) returns (ok: bool)
    requires dict.Valid() && other.Valid() && other.contents == [] && dict != other
    requires dict.slots != other.slots && dict.pairs != other.pairs
    requires AllFit(dict.contents) && |dict.contents| <= Threshold(MAX_SIZE)
    modifies other, other.slots, other.pairs
    ensures dict.Valid() && other.Valid() && dict.contents == old(dict.contents)
    ensures ok <==> NoneEmpty(dict.contents)
    ensures ok ==> other.contents == dict.contents
  {
    hide Stored, Indexed, Sized, AllFit, Encoded;
    var file;
    ok, file := Save(dict);
    if ok {
      EncodedBack(dict.contents);
      PutAllNew(dict.contents);
      var loaded := Load(other, file);
    }
  }
}
