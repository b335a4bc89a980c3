/** The two-pass radix sort of symbols by frequency. */
module RadixSort {
  datatype Sym = Sym(key: nat, index: nat)

  function Digit(s: Sym, pass: nat): nat {
    if pass == 0 then s.key % 256 else s.key / 256 % 256
  }

  /** The symbols with a digit, in order. */
  function Filter(s: seq<Sym>, pass: nat, d: nat): seq<Sym> {
    if s == [] then []
    else
      var n := |s| - 1;
      Filter(s[..n], pass, d) + if Digit(s[n], pass) == d then [s[n]] else []
  }

  /** The buckets below `d`, one behind the other. */
  function Buckets(s: seq<Sym>, pass: nat, d: nat): seq<Sym> {
    if d == 0 then [] else Buckets(s, pass, d - 1) + Filter(s, pass, d - 1)
  }

  /** Sorted by what is sorted by so far. */
  predicate SortedBy(s: seq<Sym>, r: nat) {
    forall i, j :: 0 <= i <= j < |s| ==> Rank(s[i], r) <= Rank(s[j], r)
  }

  predicate Keys(s: seq<Sym>, k: nat) {
    forall i :: 0 <= i < |s| ==> s[i].key < k
  }

  const NOTHING: nat := 0
  const LOW: nat := 1
  const KEY: nat := 2

  /** What has been sorted by so far. */
  function Rank(x: Sym, r: nat): nat {
    if r == NOTHING then 0 else if r == LOW then Digit(x, 0) else x.key
  }

  lemma FilterOne(s: seq<Sym>, x: Sym, pass: nat, d: nat)
    ensures Filter(s + [x], pass, d) == Filter(s, pass, d) + if Digit(x, pass) == d then [x] else []
  {
    assert (s + [x])[..|s|] == s;
  }

  lemma {:induction false} FilterDigit(s: seq<Sym>, pass: nat, d: nat)
    ensures forall i :: 0 <= i < |Filter(s, pass, d)| ==> Digit(Filter(s, pass, d)[i], pass) == d
  {
    if s != [] { FilterDigit(s[..|s| - 1], pass, d); }
  }

  /** Bucket by bucket nothing is lost. */
  lemma {:induction false} BucketsOne(s: seq<Sym>, x: Sym, pass: nat, d: nat)
    ensures multiset(Buckets(s + [x], pass, d))
         == multiset(Buckets(s, pass, d)) + if Digit(x, pass) < d then multiset{x} else multiset{}
  {
    if d > 0 {
      hide Digit;
      BucketsOne(s, x, pass, d - 1);
      FilterOne(s, x, pass, d - 1);
    }
  }

  lemma {:induction false} BucketsNone(pass: nat, d: nat)
    ensures Buckets([], pass, d) == []
  {
    if d > 0 { BucketsNone(pass, d - 1); }
  }

  lemma {:induction false} BucketsSame(s: seq<Sym>, pass: nat)
    ensures multiset(Buckets(s, pass, 256)) == multiset(s)
  {
    if s == [] {
      BucketsNone(pass, 256);
    } else {
      var n := |s| - 1;
      assert s == s[..n] + [s[n]];
      BucketsSame(s[..n], pass);
      BucketsOne(s[..n], s[n], pass, 256);
    }
  }

  /** Within a bucket the order is the one before. */
  lemma {:induction false} FilterSorted(s: seq<Sym>, pass: nat, d: nat, r: nat)
    requires SortedBy(s, r)
    ensures SortedBy(Filter(s, pass, d), r)
    ensures forall i :: 0 <= i < |Filter(s, pass, d)| ==> Rank(Filter(s, pass, d)[i], r) <= if s == [] then 0 else Rank(s[|s| - 1], r)
  {
    if s != [] {
      var n := |s| - 1;
      assert SortedBy(s[..n], r);
      FilterSorted(s[..n], pass, d, r);
      assert n > 0 ==> Rank(s[n - 1], r) <= Rank(s[n], r);
    }
  }

  /** Sorted by `f` before, sorted by digit and then by `f` after. */
  ghost predicate Ordered(s: seq<Sym>, pass: nat, r: nat) {
    forall i, j :: 0 <= i <= j < |s| ==> InOrder(s[i], s[j], pass, r)
  }

  predicate InOrder(x: Sym, y: Sym, pass: nat, r: nat) {
    Digit(x, pass) < Digit(y, pass) || (Digit(x, pass) == Digit(y, pass) && Rank(x, r) <= Rank(y, r))
  }

  lemma {:induction false} BucketsOrdered(s: seq<Sym>, pass: nat, d: nat, r: nat)
    requires SortedBy(s, r)
    ensures Ordered(Buckets(s, pass, d), pass, r)
    ensures forall i :: 0 <= i < |Buckets(s, pass, d)| ==> Digit(Buckets(s, pass, d)[i], pass) < d
  {
    if d > 0 {
      BucketsOrdered(s, pass, d - 1, r);
      FilterDigit(s, pass, d - 1);
      FilterSorted(s, pass, d - 1, r);
    }
  }

  /** Sorting by the low byte and then by the high byte sorts by the key. */
  lemma TwoPasses(s: seq<Sym>)
    requires Keys(s, 65536)
    ensures var t := Buckets(Buckets(s, 0, 256), 1, 256);
            SortedBy(t, KEY) && multiset(t) == multiset(s)
  {
    hide Buckets;
    var b := Buckets(s, 0, 256);
    BucketsOrdered(s, 0, 256, NOTHING);
    LowSorted(b);
    BucketsOrdered(b, 1, 256, LOW);
    BucketsSame(s, 0);
    BucketsSame(b, 1);
    var t := Buckets(b, 1, 256);
    KeysSame(s, t, 65536);
    KeySorted(t);
  }

  lemma LowSorted(b: seq<Sym>)
    requires Ordered(b, 0, NOTHING)
    ensures SortedBy(b, LOW)
  {
    forall i, j | 0 <= i <= j < |b|
      ensures Rank(b[i], LOW) <= Rank(b[j], LOW)
    {
      assert InOrder(b[i], b[j], 0, NOTHING);
    }
  }

  lemma KeySorted(t: seq<Sym>)
    requires Ordered(t, 1, LOW) && Keys(t, 65536)
    ensures SortedBy(t, KEY)
  {
    forall i, j | 0 <= i <= j < |t|
      ensures Rank(t[i], KEY) <= Rank(t[j], KEY)
    {
      assert InOrder(t[i], t[j], 1, LOW);
    }
  }

  lemma KeysSame(s: seq<Sym>, t: seq<Sym>, k: nat)
    requires Keys(s, k) && multiset(s) == multiset(t)
    ensures Keys(t, k)
  {
    forall i | 0 <= i < |t|
      ensures t[i].key < k
    {
      assert t[i] in multiset(t);
      assert t[i] in s;
    }
  }

  /** With no high byte at all the first pass is enough. */
  lemma OnePass(s: seq<Sym>)
    requires Keys(s, 256)
    ensures var t := Buckets(s, 0, 256);
            SortedBy(t, KEY) && multiset(t) == multiset(s)
  {
    hide Buckets;
    BucketsOrdered(s, 0, 256, NOTHING);
    BucketsSame(s, 0);
    var t := Buckets(s, 0, 256);
    KeysSame(s, t, 256);
    LowSorted(t);
    assert forall i :: 0 <= i < |t| ==> Rank(t[i], LOW) == Rank(t[i], KEY);
  }

  lemma {:induction false} FilterAppend(s: seq<Sym>, t: seq<Sym>, pass: nat, d: nat)
    ensures Filter(s + t, pass, d) == Filter(s, pass, d) + Filter(t, pass, d)
  {
    if t == [] {
      assert s + t == s;
    } else {
      var n := |t| - 1;
      assert (s + t)[..|s + t| - 1] == s + t[..n];
      FilterAppend(s, t[..n], pass, d);
    }
  }

  /** How many symbols have a digit does not depend on their order. */
  lemma {:induction false} FilterCount(s: seq<Sym>, t: seq<Sym>, pass: nat, d: nat)
    requires multiset(s) == multiset(t)
    ensures |Filter(s, pass, d)| == |Filter(t, pass, d)|
    decreases |s|
  {
    if s == [] {
      assert |multiset(t)| == 0;
    } else {
      var n := |s| - 1;
      assert s[n] in multiset(t);
      var j :| 0 <= j < |t| && t[j] == s[n];
      var rest := t[..j] + t[j + 1..];
      WithoutOne(s, t, j);
      FilterCount(s[..n], rest, pass, d);
      FilterWithout(t, j, pass, d);
    }
  }

  lemma WithoutOne(s: seq<Sym>, t: seq<Sym>, j: nat)
    requires multiset(s) == multiset(t) && s != [] && j < |t| && t[j] == s[|s| - 1]
    ensures multiset(t[..j] + t[j + 1..]) == multiset(s[..|s| - 1])
  {
    var x := t[j];
    assert t == t[..j] + [x] + t[j + 1..];
    assert s == s[..|s| - 1] + [x];
    assert multiset(t) == multiset(t[..j] + t[j + 1..]) + multiset{x};
    assert multiset(s) == multiset(s[..|s| - 1]) + multiset{x};
    assert multiset(t[..j] + t[j + 1..]) == multiset(t) - multiset{x};
    assert multiset(s[..|s| - 1]) == multiset(s) - multiset{x};
  }

  lemma FilterWithout(t: seq<Sym>, j: nat, pass: nat, d: nat)
    requires j < |t|
    ensures |Filter(t, pass, d)| == |Filter(t[..j] + t[j + 1..], pass, d)| + if Digit(t[j], pass) == d then 1 else 0
  {
    assert t == t[..j] + [t[j]] + t[j + 1..];
    FilterAppend(t[..j], t[j + 1..], pass, d);
    FilterAppend(t[..j] + [t[j]], t[j + 1..], pass, d);
    FilterOne(t[..j], t[j], pass, d);
  }

  function Size(s: seq<Sym>, pass: nat, d: nat): nat { |Filter(s, pass, d)| }

  function Start(s: seq<Sym>, pass: nat, d: nat): nat { |Buckets(s, pass, d)| }

  lemma {:induction false} StartGrows(s: seq<Sym>, pass: nat, d: nat, e: nat)
    requires d < e
    ensures Start(s, pass, d) + Size(s, pass, d) <= Start(s, pass, e)
    decreases e
  {
    if d < e - 1 { StartGrows(s, pass, d, e - 1); }
  }

  lemma {:induction false} SizeGrows(s: seq<Sym>, pass: nat, d: nat, i: nat)
    requires i <= |s|
    ensures Size(s[..i], pass, d) <= Size(s, pass, d)
    ensures i < |s| && Digit(s[i], pass) == d ==> Size(s[..i], pass, d) < Size(s, pass, d)
  {
    assert s == s[..i] + s[i..];
    FilterAppend(s[..i], s[i..], pass, d);
    if i < |s| && Digit(s[i], pass) == d {
      assert s[i..] == [s[i]] + s[i + 1..];
      FilterAppend([s[i]], s[i + 1..], pass, d);
      assert [s[i]][..0] == [];
    }
  }

  /** The first `|part|` symbols are in their places. */
  ghost predicate InPlace(to: seq<Sym>, s: seq<Sym>, part: seq<Sym>, pass: nat) {
    |to| >= |s| && forall d: nat :: d < 256 ==> BucketBegun(to, s, part, pass, d)
  }

  ghost predicate BucketBegun(to: seq<Sym>, s: seq<Sym>, part: seq<Sym>, pass: nat, d: nat) {
    var b, f := Start(s, pass, d), Filter(part, pass, d);
    b + |f| <= |to| && to[b..b + |f|] == f
  }

  lemma {:induction false} StartAll(s: seq<Sym>, pass: nat)
    ensures Start(s, pass, 256) == |s|
  {
    BucketsSame(s, pass);
    assert |multiset(Buckets(s, pass, 256))| == |Buckets(s, pass, 256)|;
    assert |multiset(s)| == |s|;
  }

  /** The next symbol goes behind those of its bucket. */
  lemma PlaceNext(to: seq<Sym>, s: seq<Sym>, i: nat, pass: nat)
    requires i < |s| && InPlace(to, s, s[..i], pass) && Digit(s[i], pass) < 256
    ensures var d := Digit(s[i], pass); var at := Start(s, pass, d) + Size(s[..i], pass, d);
            at < |s| && InPlace(to[at := s[i]], s, s[..i + 1], pass)
  {
    hide Digit, Filter, Buckets;
    var d := Digit(s[i], pass);
    var at := Start(s, pass, d) + Size(s[..i], pass, d);
    SizeGrows(s, pass, d, i);
    StartGrows(s, pass, d, 256);
    StartAll(s, pass);
    var now, part := to[at := s[i]], s[..i + 1];
    assert part == s[..i] + [s[i]];
    forall e: nat | e < 256
      ensures BucketBegun(now, s, part, pass, e)
    {
      assert BucketBegun(to, s, s[..i], pass, e);
      FilterOne(s[..i], s[i], pass, e);
      SizeGrows(s, pass, e, i);
      if e < d { StartGrows(s, pass, e, d); }
      if d < e { StartGrows(s, pass, d, e); }
      PlacedBucket(to, now, s, s[..i], s[i], pass, e, at);
    }
  }

  lemma PlacedBucket(to: seq<Sym>, now: seq<Sym>, s: seq<Sym>, part: seq<Sym>, x: Sym, pass: nat, e: nat, at: nat)
    requires BucketBegun(to, s, part, pass, e) && at < |to| && now == to[at := x]
    requires if Digit(x, pass) == e then at == Start(s, pass, e) + Size(part, pass, e)
             else at < Start(s, pass, e) || at >= Start(s, pass, e) + Size(part, pass, e)
    ensures BucketBegun(now, s, part + [x], pass, e)
  {
    hide Buckets, Digit, Filter;
    FilterOne(part, x, pass, e);
    var b, f := Start(s, pass, e), Filter(part, pass, e);
    if Digit(x, pass) == e {
      assert now[b..b + |f| + 1] == to[b..b + |f|] + [x];
    } else {
      assert now[b..b + |f|] == to[b..b + |f|];
    }
  }

  lemma {:induction false} AllPlaced(to: seq<Sym>, s: seq<Sym>, pass: nat, d: nat)
    requires InPlace(to, s, s, pass) && d <= 256
    ensures Start(s, pass, d) <= |to| && to[..Start(s, pass, d)] == Buckets(s, pass, d)
  {
    if d > 0 {
      AllPlaced(to, s, pass, d - 1);
      assert BucketBegun(to, s, s, pass, d - 1);
      var b, e := Start(s, pass, d - 1), Start(s, pass, d);
      assert to[..e] == to[..b] + to[b..e];
    }
  }

  /** One counting pass from one array to the other. */
  method Pass(from: array<Sym>, to: array<Sym>, n: nat, pass: nat, hist: seq<nat>)
    requires from != to && n <= from.Length && n <= to.Length && pass <= 1
    requires |hist| == 256 && forall d: nat :: d < 256 ==> hist[d] == Size(from[..n], pass, d)
    modifies to
    ensures to[..n] == Buckets(from[..n], pass, 256)
  {
    hide Buckets, Filter, InPlace, Digit;
    ghost var s := from[..n];
    var offsets := seq(256, _ => 0);
    var cur, d := 0, 0;
    StartNext(s, pass, 0);
    while d < 256
      invariant 0 <= d <= 256 && |offsets| == 256 && cur == Start(s, pass, d)
      invariant forall e: nat :: e < d ==> offsets[e] == Start(s, pass, e)
    {
      offsets := offsets[d := cur];
      cur := cur + hist[d];
      StartNext(s, pass, d);
      d := d + 1;
    }
    var i := 0;
    NothingPlaced(to[..], s, pass);
    assert s[..0] == [];
    while i < n
      invariant 0 <= i <= n && |offsets| == 256 && s == from[..n]
      invariant InPlace(to[..], s, s[..i], pass)
      invariant forall e: nat :: e < 256 ==> offsets[e] == Start(s, pass, e) + Size(s[..i], pass, e)
    {
      DigitBound(s[i], pass);
      PlaceNext(to[..], s, i, pass);
      SizeNext(s, i, pass);
      var digit := Digit(from[i], pass);
      to[offsets[digit]] := from[i];
      offsets := offsets[digit := offsets[digit] + 1];
      i := i + 1;
    }
    assert s[..n] == s;
    AllPlaced(to[..], s, pass, 256);
    StartAll(s, pass);
    assert to[..][..n] == to[..n];
  }

  lemma DigitBound(x: Sym, pass: nat)
    ensures Digit(x, pass) < 256
  {
  }

  lemma StartNext(s: seq<Sym>, pass: nat, d: nat)
    ensures Start(s, pass, d + 1) == Start(s, pass, d) + Size(s, pass, d) && Start(s, pass, 0) == 0
  {
  }

  lemma SizeNext(s: seq<Sym>, i: nat, pass: nat)
    requires i < |s|
    ensures forall e: nat :: Size(s[..i + 1], pass, e) == Size(s[..i], pass, e) + if Digit(s[i], pass) == e then 1 else 0
  {
    assert s[..i + 1] == s[..i] + [s[i]];
    forall e: nat
      ensures Size(s[..i + 1], pass, e) == Size(s[..i], pass, e) + if Digit(s[i], pass) == e then 1 else 0
    {
      FilterOne(s[..i], s[i], pass, e);
    }
  }

  lemma NothingPlaced(to: seq<Sym>, s: seq<Sym>, pass: nat)
    requires |s| <= |to|
    ensures InPlace(to, s, [], pass) && Start(s, pass, 0) == 0 && forall e: nat :: Size([], pass, e) == 0
  {
    forall d: nat | d < 256
      ensures BucketBegun(to, s, [], pass, d)
    {
      StartGrows(s, pass, d, 256);
      StartAll(s, pass);
    }
  }

  /** How often each byte occurs, low bytes first. */
  method Histogram(a: array<Sym>, n: nat) returns (low: seq<nat>, high: seq<nat>)
    requires n <= a.Length
    ensures |low| == |high| == 256
    ensures forall d: nat :: d < 256 ==> low[d] == Size(a[..n], 0, d) && high[d] == Size(a[..n], 1, d)
  {
    hide Filter;
    low, high := seq(256, _ => 0), seq(256, _ => 0);
    ghost var s := a[..n];
    var i := 0;
    assert s[..0] == [];
    NothingPlaced(s, s, 0);
    NothingPlaced(s, s, 1);
    while i < n
      invariant 0 <= i <= n && |low| == |high| == 256
      invariant forall d: nat :: d < 256 ==> low[d] == Size(s[..i], 0, d) && high[d] == Size(s[..i], 1, d)
    {
      SizeNext(s, i, 0);
      SizeNext(s, i, 1);
      var l, h := Digit(a[i], 0), Digit(a[i], 1);
      low := low[l := low[l] + 1];
      high := high[h := high[h] + 1];
      i := i + 1;
    }
    assert s[..n] == s;
  }

  /** tdefl_radix_sort_syms: the symbols, in one of the two arrays, sorted by key. */
  method Sort(a: array<Sym>, b: array<Sym>, n: nat) returns (c: array<Sym>)
    requires a != b && n <= a.Length && n <= b.Length && Keys(a[..n], 65536)
    modifies a, b
    ensures (c == a || c == b) && SortedBy(c[..n], KEY) && multiset(c[..n]) == multiset(old(a[..n]))
  {
    hide Buckets, Filter, Keys, Ordered, SortedBy, Digit;
    ghost var s := a[..n];
    var low, high := Histogram(a, n);
    Pass(a, b, n, 0, low);
    if n == high[0] {
      SmallKeys(s);
      OnePass(s);
      return b;
    }
    ghost var t := b[..n];
    BucketsSame(s, 0);
    forall d: nat | d < 256
      ensures high[d] == Size(t, 1, d)
    {
      FilterCount(s, t, 1, d);
    }
    TwoPasses(s);
    Pass(b, a, n, 1, high);
    c := a;
  }

  /** Nothing but zero high bytes. */
  lemma {:induction false} SmallKeys(s: seq<Sym>)
    requires Keys(s, 65536) && Size(s, 1, 0) == |s|
    ensures Keys(s, 256)
  {
    if s != [] {
      var n := |s| - 1;
      SizeMost(s[..n]);
      SmallKeys(s[..n]);
      assert s == s[..n] + [s[n]];
    }
  }

  lemma {:induction false} SizeMost(s: seq<Sym>)
    ensures Size(s, 1, 0) <= |s|
  {
    if s != [] { SizeMost(s[..|s| - 1]); }
  }
}
