/** From symbol counts to the code lengths of a block. */
module HuffmanOptimize {
  import opened HuffmanCode
  import HuffmanDepths
  import HuffmanMerging
  import HuffmanLimit
  import HuffmanTree
  import opened RadixSort
  import opened SymbolCounts

  /** Finer units double the sum. */
  lemma {:induction false} KraftFiner(lens: seq<nat>, k: nat)
    requires forall i :: 0 <= i < |lens| ==> lens[i] <= k
    ensures HuffmanMerging.KraftSum(lens, k + 1) == 2 * HuffmanMerging.KraftSum(lens, k)
  {
    if lens != [] {
      KraftFiner(lens[1..], k);
    }
  }

  lemma {:induction false} KraftAny(lens: seq<nat>, j: nat, k: nat)
    requires j <= k && forall i :: 0 <= i < |lens| ==> lens[i] <= j
    ensures HuffmanMerging.KraftSum(lens, k) == Pow2(k) <==> HuffmanMerging.KraftSum(lens, j) == Pow2(j)
    decreases k - j
  {
    if j < k {
      KraftAny(lens, j, k - 1);
      KraftFiner(lens, k - 1);
    }
  }

  lemma {:induction false} KraftMore(lens: seq<nat>, x: nat, k: nat)
    ensures HuffmanMerging.KraftSum(lens + [x], k) == HuffmanMerging.KraftSum(lens, k) + if x <= k then Pow2(k - x) else 0
  {
    if lens == [] {
      assert [x][1..] == [];
    } else {
      assert (lens + [x])[1..] == lens[1..] + [x];
      KraftMore(lens[1..], x, k);
    }
  }

  function NoLonger(lens: seq<nat>, v: nat): (n: nat)
    ensures n <= |lens|
  {
    if lens == [] then 0 else NoLonger(lens[..|lens| - 1], v) + if lens[|lens| - 1] <= v then 1 else 0
  }

  lemma NoLongerMore(c: seq<nat>, lens: seq<nat>, l: nat)
    requires 1 <= l <= 32 && |c| == 33 && forall v :: 0 <= v <= 32 ==> HuffmanLimit.Codes(c, v) == NoLonger(lens, v)
    ensures forall v :: 0 <= v <= 32 ==> HuffmanLimit.Codes(c[l := c[l] + 1], v) == NoLonger(lens + [l], v)
  {
    forall v | 0 <= v <= 32
      ensures HuffmanLimit.Codes(c[l := c[l] + 1], v) == NoLonger(lens + [l], v)
    {
      HuffmanLimit.CodesUpdate(c, v, l, c[l] + 1);
      assert (lens + [l])[..|lens|] == lens;
    }
  }

  /** Where in falling lengths those up to `v` are. */
  lemma {:induction false} NoLongerEnd(lens: seq<nat>, v: nat, x: nat)
    requires HuffmanDepths.Falling(lens) && x < |lens|
    ensures lens[x] <= v <==> |lens| - NoLonger(lens, v) <= x
  {
    var n := |lens| - 1;
    if lens[n] > v {
      AllLonger(lens, v);
    } else if x < n {
      NoLongerEnd(lens[..n], v, x);
    }
  }

  lemma {:induction false} AllLonger(lens: seq<nat>, v: nat)
    requires forall i :: 0 <= i < |lens| ==> lens[i] > v
    ensures NoLonger(lens, v) == 0
  {
    if lens != [] { AllLonger(lens[..|lens| - 1], v); }
  }

  /** How many codes have each length, from the lengths of the symbols. */
  method CountCodes(lens: array<nat>) returns (c: array<nat>)
    requires forall i :: 0 <= i < lens.Length ==> 1 <= lens[i] <= HuffmanLimit.MAX_SUPPORTED
    ensures fresh(c) && c.Length == HuffmanLimit.MAX_SUPPORTED + 1
    ensures HuffmanLimit.Codes(c[..], 32) == lens.Length
    ensures HuffmanLimit.Units(c[..], 32, 32) == HuffmanMerging.KraftSum(lens[..], 32)
    ensures forall v :: 0 <= v <= 32 ==> HuffmanLimit.Codes(c[..], v) == NoLonger(lens[..], v)
    ensures lens.Length == 1 ==> forall k :: 1 <= k <= 32 ==> c[k] == if k == lens[0] then 1 else 0
  {
    hide Pow2, Shl, HuffmanLimit.Codes, HuffmanLimit.Units, NoLonger, HuffmanMerging.KraftSum;
    c := new nat[33](_ => 0);
    NoCodes(c[..], 32);
    NoLengths(32);
    var i := 0;
    assert lens[..0] == [];
    while i < lens.Length
      invariant 0 <= i <= lens.Length && c.Length == 33
      invariant HuffmanLimit.Codes(c[..], 32) == i
      invariant HuffmanLimit.Units(c[..], 32, 32) == HuffmanMerging.KraftSum(lens[..i], 32)
      invariant forall v :: 0 <= v <= 32 ==> HuffmanLimit.Codes(c[..], v) == NoLonger(lens[..i], v)
      invariant lens.Length == 1 ==> forall k :: 1 <= k <= 32 ==> c[k] == if i == 1 && k == lens[0] then 1 else 0
    {
      var l := lens[i];
      OneMoreCode(c[..], l);
      KraftMore(lens[..i], l, 32);
      NoLongerMore(c[..], lens[..i], l);
      assert lens[..i + 1] == lens[..i] + [l];
      c[l] := c[l] + 1;
      i := i + 1;
    }
    assert lens[..i] == lens[..];
  }

  lemma NoLengths(k: nat)
    ensures HuffmanMerging.KraftSum([], k) == 0 && forall v :: NoLonger([], v) == 0
  {
  }

  lemma {:induction false} NoCodes(c: seq<nat>, m: nat)
    requires m <= 32 < |c| && forall i :: 0 <= i < |c| ==> c[i] == 0
    ensures HuffmanLimit.Codes(c, m) == 0 && HuffmanLimit.Units(c, m, 32) == 0
    ensures forall v :: 0 <= v <= m ==> HuffmanLimit.Codes(c, v) == 0
  {
    if m > 0 {
      NoCodes(c, m - 1);
      HuffmanDepths.ShlOne(32 - m);
    }
  }

  lemma OneMoreCode(c: seq<nat>, l: nat)
    requires 1 <= l <= 32 && |c| == 33
    ensures var d := c[l := c[l] + 1];
            HuffmanLimit.Codes(d, 32) == HuffmanLimit.Codes(c, 32) + 1
            && HuffmanLimit.Units(d, 32, 32) == HuffmanLimit.Units(c, 32, 32) + Pow2(32 - l)
  {
    hide Pow2, Shl;
    HuffmanLimit.CodesUpdate(c, 32, l, c[l] + 1);
    HuffmanLimit.UnitsUpdate(c, 32, 32, l, c[l] + 1);
    ShlAdds(c[l], 1, 32 - l);
    HuffmanDepths.ShlOne(32 - l);
  }

  lemma {:induction false} CountUpdate(lens: Lengths, l: nat, n: nat, s: nat, v: nat)
    requires n <= |lens| && s < |lens| && v <= MAX_BITS
    ensures Count(lens[s := v], l, n) + (if s < n && lens[s] == l then 1 else 0)
         == Count(lens, l, n) + if s < n && v == l then 1 else 0
  {
    if n > 0 { CountUpdate(lens, l, n - 1, s, v); }
  }

  /** Symbols from `j` on have their lengths, the others none. */
  ghost predicate Assigned(sizes: Lengths, counts: seq<nat>, t: seq<Sym>, j: nat, limit: nat) {
    && |sizes| == |counts| && j <= |t|
    && (forall s :: 0 <= s < |sizes| && sizes[s] > 0 ==> counts[s] > 0 && sizes[s] <= limit)
    && (forall i :: 0 <= i < j ==> t[i].index < |sizes| && sizes[t[i].index] == 0)
    && (forall i :: j <= i < |t| ==> t[i].index < |sizes| && sizes[t[i].index] > 0)
  }

  /** Place `x` of `n` is one of those that get length `v` when lengths are
      handed out from the end, shortest first. */
  predicate InPlace(c: seq<nat>, v: nat, n: nat, x: nat) {
    1 <= v < |c| && n - HuffmanLimit.Codes(c, v) <= x < n - HuffmanLimit.Codes(c, v - 1)
  }

  ghost predicate Ranked(sizes: Lengths, t: seq<Sym>, c: seq<nat>, j: nat) {
    forall x :: j <= x < |t| ==> RankedAt(sizes, t, c, x)
  }

  predicate RankedAt(sizes: Lengths, t: seq<Sym>, c: seq<nat>, x: nat) {
    x < |t| && t[x].index < |sizes| && InPlace(c, sizes[t[x].index], |t|, x)
  }

  lemma RankedNext(sizes: Lengths, counts: seq<nat>, t: seq<Sym>, c: seq<nat>, j: nat, v: nat)
    requires Arranged(counts, t) && 0 < j <= |t| && Ranked(sizes, t, c, j) && InPlace(c, v, |t|, j - 1)
    requires v <= MAX_BITS && |sizes| == |counts| && t[j - 1].index < |sizes|
    ensures Ranked(sizes[t[j - 1].index := v], t, c, j - 1)
  {
    hide InPlace;
    var s := t[j - 1].index;
    var sizes' := sizes[s := v];
    forall x | j - 1 <= x < |t|
      ensures RankedAt(sizes', t, c, x)
    {
      if x >= j {
        assert RankedAt(sizes, t, c, x);
        ArrangedDistinct(counts, t, j - 1, x);
      }
    }
  }

  /** A place gets one length only. */
  lemma InPlaceOnce(c: seq<nat>, v: nat, w: nat, n: nat, x: nat, y: nat)
    requires InPlace(c, v, n, x) && InPlace(c, w, n, y) && x <= y
    ensures w <= v
  {
    if v < w { FewerCodes(c, v, w - 1); }
  }

  lemma AssignNext(sizes: Lengths, counts: seq<nat>, t: seq<Sym>, j: nat, limit: nat, v: nat)
    requires Arranged(counts, t) && 0 < j && Assigned(sizes, counts, t, j, limit) && 1 <= v <= limit <= MAX_BITS
    ensures var s := t[j - 1].index;
            s < |sizes| == |counts| && Assigned(sizes[s := v], counts, t, j - 1, limit)
            && (forall l: nat :: l >= 1 ==> Total(sizes[s := v], l) == Total(sizes, l) + if l == v then 1 else 0)
  {
    var s := t[j - 1].index;
    ArrangedOccurs(counts, t, j - 1);
    forall i | 0 <= i < |t| && i != j - 1
      ensures t[i].index != s
    {
      if i < j - 1 { ArrangedDistinct(counts, t, i, j - 1); } else { ArrangedDistinct(counts, t, j - 1, i); }
    }
    forall l: nat | l >= 1
      ensures Total(sizes[s := v], l) == Total(sizes, l) + if l == v then 1 else 0
    {
      CountUpdate(sizes, l, |sizes|, s, v);
    }
  }

  /** Lengths are handed out in order, the longest to the rarest symbols. */
  method AssignSizes(counts: seq<nat>, t: seq<Sym>, c: array<nat>, limit: nat) returns (sizes: Lengths)
    requires Arranged(counts, t) && 1 <= limit <= MAX_BITS && c.Length == 33
    requires HuffmanLimit.Codes(c[..], limit) == |t|
    ensures Assigned(sizes, counts, t, 0, limit) && Ranked(sizes, t, c[..], 0)
    ensures forall l: nat :: 1 <= l <= MAX_BITS ==> Total(sizes, l) == if l <= limit then c[l] else 0
  {
    hide Assigned, Arranged, Total, Ranked;
    sizes := seq(|counts|, _ => 0);
    NoSizes(sizes, counts, t, limit);
    var j, i := |t|, 1;
    while i <= limit
      invariant 1 <= i <= limit + 1 && 0 <= j <= |t| && j + HuffmanLimit.Codes(c[..], i - 1) == |t|
      invariant Assigned(sizes, counts, t, j, limit) && Ranked(sizes, t, c[..], j)
      invariant forall l: nat :: 1 <= l ==> Total(sizes, l) == if l < i then c[l] else 0
    {
      CodesAtMost(c[..], i, limit);
      var l := c[i];
      while l > 0
        invariant 0 <= l <= c[i] && l <= j && j - l + HuffmanLimit.Codes(c[..], i) == |t|
        invariant Assigned(sizes, counts, t, j, limit) && Ranked(sizes, t, c[..], j)
        invariant forall k: nat :: 1 <= k ==> Total(sizes, k) == if k < i then c[k] else if k == i then c[i] - l else 0
      {
        ghost var before := sizes;
        AssignNext(sizes, counts, t, j, limit, i);
        RankedNext(sizes, counts, t, c[..], j, i);
        j := j - 1;
        sizes := sizes[t[j].index := i];
        l := l - 1;
        assert forall k: nat :: 1 <= k ==> Total(sizes, k) == Total(before, k) + if k == i then 1 else 0;
      }
      i := i + 1;
    }
  }

  lemma NoSizes(sizes: Lengths, counts: seq<nat>, t: seq<Sym>, limit: nat)
    requires Arranged(counts, t) && |sizes| == |counts| && forall i :: 0 <= i < |sizes| ==> sizes[i] == 0
    ensures Assigned(sizes, counts, t, |t|, limit) && forall l: nat :: l >= 1 ==> Total(sizes, l) == 0
    ensures forall c :: Ranked(sizes, t, c, |t|)
  {
    forall i | 0 <= i < |t|
      ensures t[i].index < |sizes|
    {
      ArrangedOccurs(counts, t, i);
    }
    forall l: nat | l >= 1
      ensures Total(sizes, l) == 0
    {
      NoneCounted(sizes, l, |sizes|);
    }
  }

  lemma {:induction false} NoneCounted(sizes: Lengths, l: nat, n: nat)
    requires n <= |sizes| && l >= 1 && forall i :: 0 <= i < |sizes| ==> sizes[i] == 0
    ensures Count(sizes, l, n) == 0
  {
    if n > 0 { NoneCounted(sizes, l, n - 1); }
  }

  lemma {:induction false} CodesAtMost(c: seq<nat>, i: nat, m: nat)
    requires 1 <= i <= m < |c|
    ensures HuffmanLimit.Codes(c, i - 1) + c[i] == HuffmanLimit.Codes(c, i) <= HuffmanLimit.Codes(c, m)
    decreases m
  {
    if i < m { CodesAtMost(c, i, m - 1); }
  }

  lemma {:induction false} UnitsFull(c: seq<nat>, m: nat, t: nat)
    requires m < |c| && m <= t && HuffmanLimit.Units(c, m, m) == Pow2(m)
    ensures HuffmanLimit.Units(c, m, t) == Pow2(t)
    decreases t
  {
    if t > m {
      UnitsFull(c, m, t - 1);
      HuffmanLimit.UnitsFiner(c, m, t - 1);
    }
  }

  /** The lengths of the table are the ones counted, up to the limit. */
  ghost predicate Counted(sizes: Lengths, c: seq<nat>, limit: nat) {
    1 <= limit <= MAX_BITS && |c| == 33 &&
    forall l: nat :: 1 <= l <= MAX_BITS ==> Total(sizes, l) == if l <= limit then c[l] else 0
  }

  lemma {:induction false} CountedKraft(sizes: Lengths, c: seq<nat>, limit: nat, m: nat)
    requires Counted(sizes, c, limit) && m <= MAX_BITS
    ensures Kraft(sizes, m) == HuffmanLimit.Units(c, if m <= limit then m else limit, MAX_BITS + 1)
    ensures UsedUpTo(sizes, m) == HuffmanLimit.Codes(c, if m <= limit then m else limit)
  {
    hide Total;
    if m > 0 {
      CountedKraft(sizes, c, limit, m - 1);
      HuffmanDepths.ShlOne(MAX_BITS + 1 - m);
    }
  }

  lemma CountedComplete(sizes: Lengths, c: seq<nat>, limit: nat)
    requires Counted(sizes, c, limit) && HuffmanLimit.Units(c, limit, limit) == Pow2(limit)
    ensures Complete(sizes)
  {
    hide Total, Kraft, Complete, Pow2;
    CountedKraft(sizes, c, limit, MAX_BITS);
    UnitsFull(c, limit, MAX_BITS + 1);
    CompleteIsKraft(sizes);
  }

  lemma {:induction false} OneCode(c: seq<nat>, m: nat)
    requires 1 <= m < |c| && forall k :: 1 <= k <= m ==> c[k] == if k == 1 then 1 else 0
    ensures HuffmanLimit.Codes(c, m) == 1
  {
    if m > 1 { OneCode(c, m - 1); } else { assert HuffmanLimit.Codes(c, 0) == 0; }
  }

  lemma {:induction false} FewerCodes(c: seq<nat>, i: nat, m: nat)
    requires i <= m < |c|
    ensures HuffmanLimit.Codes(c, i) <= HuffmanLimit.Codes(c, m)
    decreases m
  {
    if i < m { FewerCodes(c, i, m - 1); }
  }

  /** The symbols that occur, with their counts. */
  method Collect(counts: seq<nat>) returns (a: array<Sym>, n: nat)
    ensures fresh(a) && a.Length == |counts| && n <= |counts| && a[..n] == Occurring(counts, |counts|)
  {
    a := new Sym[|counts|](_ => Sym(0, 0));
    n := 0;
    var i := 0;
    while i < |counts|
      invariant 0 <= i <= |counts| && n <= i && a[..n] == Occurring(counts, i)
    {
      if counts[i] > 0 {
        a[n] := Sym(counts[i], i);
        n := n + 1;
      }
      i := i + 1;
    }
  }

  /** The lengths of the sorted symbols, from their weights. */
  method TreeLengths(t: seq<Sym>, ghost counts: seq<nat>) returns (keys: array<nat>)
    requires Arranged(counts, t) && SortedBy(t, KEY) && SumCounts(counts, |counts|) < 65536
    ensures fresh(keys) && keys.Length == |t|
    ensures forall i :: 0 <= i < |t| ==> 1 <= keys[i] <= 22
    ensures |t| >= 2 ==> HuffmanMerging.KraftSum(keys[..], 32) == Pow2(32)
    ensures |t| >= 2 ==> HuffmanDepths.Falling(keys[..]) && HuffmanMerging.Shortest(Weights(t), keys[..])
    ensures |t| >= 2 ==> HuffmanDepths.Shallow(keys[..], SumCounts(counts, |counts|))
    ensures |t| == 1 ==> keys[0] == 1
  {
    hide Arranged, SortedBy, Pow2, HuffmanMerging.Shortest, HuffmanDepths.Shallow;
    keys := new nat[|t|](i requires 0 <= i < |t| => t[i].key);
    assert keys[..] == Weights(t);
    Weighable(counts, t);
    HuffmanDepths.MinimumRedundancy(keys);
    if |t| >= 2 { LeavesKraft(keys[..]); }
  }

  lemma LeavesKraft(lens: seq<nat>)
    requires |lens| >= 2 && HuffmanDepths.Leaves(lens, |lens|, |lens| - 1) && HuffmanDepths.Leaves(lens, 23, |lens| - 1)
    requires HuffmanMerging.KraftSum(lens, |lens| - 1) == Pow2(|lens| - 1)
    ensures HuffmanMerging.KraftSum(lens, 32) == Pow2(32)
    ensures HuffmanDepths.Falling(lens) && forall i :: 0 <= i < |lens| ==> 1 <= lens[i] <= 22
  {
    hide Pow2;
    if |lens| - 1 <= 32 {
      KraftAny(lens, |lens| - 1, 32);
    } else {
      KraftAny(lens, 32, |lens| - 1);
    }
  }

  /** What a table is for: exactly the symbols that occur get a code, none
      longer than the limit, and symbols that occur less often get no shorter one. */
  ghost predicate Fitting(counts: seq<nat>, sizes: Lengths, limit: nat) {
    && |sizes| == |counts|
    && (forall s :: 0 <= s < |sizes| ==> sizes[s] <= limit && (sizes[s] > 0 <==> counts[s] > 0))
    && (forall s, r :: 0 <= s < |sizes| && 0 <= r < |sizes| && 0 < counts[s] < counts[r] ==> sizes[s] >= sizes[r])
  }

  /** tdefl_optimize_huffman_table, for a block's own table. The decoder takes
      the code: it is complete, or has one word at most. No prefix code makes
      the text shorter unless codes had to be cut down to the limit, and that
      takes as many symbols as a Fibonacci number says. */
  method OptimizeTable(counts: seq<nat>, limit: nat) returns (sizes: Lengths, ghost cut: bool)
    requires SumCounts(counts, |counts|) < 65536 && 1 <= limit <= MAX_BITS
    requires |Occurring(counts, |counts|)| <= Pow2(limit)
    ensures Fitting(counts, sizes, limit) && HuffmanTree.Buildable(sizes)
    ensures |Occurring(counts, |counts|)| >= 2 ==> Complete(sizes)
    ensures |Occurring(counts, |counts|)| >= 2 && !cut ==> Cheapest(counts, sizes)
    ensures cut ==> SumCounts(counts, |counts|) >= HuffmanDepths.Fib(limit + 3)
  {
    hide Arranged, SortedBy, Pow2, Keys, Complete, Fitting, Cheapest, HuffmanDepths.Fib;
    var a, n := Collect(counts);
    var b := new Sym[|counts|](_ => Sym(0, 0));
    OccurringKeys(counts);
    var sorted := Sort(a, b, n);
    IsArranged(counts, sorted[..n]);
    sizes, cut := SortedSizes(counts, sorted[..n], limit);
  }

  /** The rest of it, the symbols being sorted. */
  method SortedSizes(counts: seq<nat>, t: seq<Sym>, limit: nat) returns (sizes: Lengths, ghost cut: bool)
    requires SumCounts(counts, |counts|) < 65536 && 1 <= limit <= MAX_BITS
    requires Arranged(counts, t) && SortedBy(t, KEY) && |t| <= Pow2(limit)
    ensures Fitting(counts, sizes, limit) && HuffmanTree.Buildable(sizes)
    ensures |t| >= 2 ==> Complete(sizes)
    ensures |t| >= 2 && !cut ==> Cheapest(counts, sizes)
    ensures cut ==> SumCounts(counts, |counts|) >= HuffmanDepths.Fib(limit + 3)
  {
    hide Arranged, SortedBy, Pow2, Complete, Assigned, Total, Ranked, Fitting, Cheapest, HuffmanMerging.Shortest,
      HuffmanDepths.Fib, HuffmanDepths.Shallow, HuffmanDepths.Falling;
    var keys := TreeLengths(t, counts);
    var c := CountCodes(keys);
    cut := |t| >= 2 && HuffmanLimit.Codes(c[..], limit) != |t|;
    if cut { CutHeavy(keys[..], SumCounts(counts, |counts|), limit); }
    HuffmanLimit.EnforceMaxCodeSize(c, |t|, limit);
    if |t| == 1 { OneCode(c[..], limit); }
    if |t| == 0 { FewerCodes(c[..], limit, 32); }
    sizes := AssignSizes(counts, t, c, limit);
    AllAssigned(sizes, counts, t, c[..], limit);
    if |t| >= 2 {
      CountedComplete(sizes, c[..], limit);
      if !cut { RankedCheapest(counts, t, keys[..], c[..], sizes); }
    } else {
      CountedKraft(sizes, c[..], limit, MAX_BITS);
    }
  }

  /** Codes are only longer than the limit in heavy texts. */
  lemma CutHeavy(lens: seq<nat>, total: nat, limit: nat)
    requires HuffmanDepths.Shallow(lens, total) && NoLonger(lens, limit) != |lens|
    ensures total >= HuffmanDepths.Fib(limit + 3)
  {
    hide HuffmanDepths.Fib;
    if forall i :: 0 <= i < |lens| ==> lens[i] <= limit {
      NoneLonger(lens, limit);
    } else {
      var i :| 0 <= i < |lens| && lens[i] > limit;
      HuffmanDepths.FibGrows(limit + 3, lens[i] + 2);
    }
  }

  lemma {:induction false} NoneLonger(lens: seq<nat>, v: nat)
    requires forall i :: 0 <= i < |lens| ==> lens[i] <= v
    ensures NoLonger(lens, v) == |lens|
  {
    if lens != [] { NoneLonger(lens[..|lens| - 1], v); }
  }

  /** The lengths handed out are those of the tree. */
  lemma RankedCheapest(counts: seq<nat>, t: seq<Sym>, keys: seq<nat>, c: seq<nat>, sizes: Lengths)
    requires Arranged(counts, t) && |sizes| == |counts| && Ranked(sizes, t, c, 0) && |c| == 33 && |keys| == |t|
    requires HuffmanDepths.Falling(keys) && HuffmanMerging.Shortest(Weights(t), keys)
    requires forall i :: 0 <= i < |keys| ==> 1 <= keys[i] <= 32
    requires forall v :: 0 <= v <= 32 ==> HuffmanLimit.Codes(c, v) == NoLonger(keys, v)
    ensures Cheapest(counts, sizes)
  {
    hide Cheapest, HuffmanMerging.Shortest, HuffmanDepths.Falling, Arranged;
    forall x | 0 <= x < |t|
      ensures t[x].index < |sizes| && sizes[t[x].index] == keys[x]
    {
      assert RankedAt(sizes, t, c, x);
      NoLongerEnd(keys, keys[x], x);
      NoLongerEnd(keys, keys[x] - 1, x);
      InPlaceOnce(c, sizes[t[x].index], keys[x], |t|, x, x);
      InPlaceOnce(c, keys[x], sizes[t[x].index], |t|, x, x);
    }
    assert LensOf(t, sizes) == keys;
    ShortestCheapest(counts, t, sizes);
  }

  lemma OccurringKeys(counts: seq<nat>)
    requires SumCounts(counts, |counts|) < 65536
    ensures Keys(Occurring(counts, |counts|), 65536)
  {
    var o := Occurring(counts, |counts|);
    forall i | 0 <= i < |o|
      ensures o[i].key < 65536
    {
      ArrangedOccurs(counts, o, i);
      CountBelow(counts, o[i].index, |counts|);
    }
  }

  lemma {:induction false} CountBelow(counts: seq<nat>, i: nat, n: nat)
    requires i < n <= |counts|
    ensures counts[i] <= SumCounts(counts, n)
  {
    if i < n - 1 { CountBelow(counts, i, n - 1); }
  }

  lemma IsArranged(counts: seq<nat>, t: seq<Sym>)
    requires multiset(t) == multiset(Occurring(counts, |counts|))
    ensures Arranged(counts, t) && |t| == |Occurring(counts, |counts|)|
  {
    assert |multiset(t)| == |t|;
    assert |multiset(Occurring(counts, |counts|))| == |Occurring(counts, |counts|)|;
  }

  lemma AllAssigned(sizes: Lengths, counts: seq<nat>, t: seq<Sym>, c: seq<nat>, limit: nat)
    requires Assigned(sizes, counts, t, 0, limit) && Arranged(counts, t) && SortedBy(t, KEY) && Ranked(sizes, t, c, 0)
    ensures |sizes| == |counts| && Fitting(counts, sizes, limit)
  {
    hide Arranged, Ranked;
    forall s | 0 <= s < |sizes| && counts[s] > 0
      ensures sizes[s] > 0
    {
      ArrangedAll(counts, t, s);
    }
    forall s, r | 0 <= s < |sizes| && 0 <= r < |sizes| && 0 < counts[s] < counts[r]
      ensures sizes[s] >= sizes[r]
    {
      RarerLonger(sizes, counts, t, c, s, r);
    }
  }

  lemma RarerLonger(sizes: Lengths, counts: seq<nat>, t: seq<Sym>, c: seq<nat>, s: nat, r: nat)
    requires Arranged(counts, t) && SortedBy(t, KEY) && Ranked(sizes, t, c, 0) && |sizes| == |counts|
    requires s < |sizes| && r < |sizes| && 0 < counts[s] < counts[r]
    ensures sizes[s] >= sizes[r]
  {
    hide Arranged, InPlace;
    ArrangedAll(counts, t, s);
    ArrangedAll(counts, t, r);
    var x :| 0 <= x < |t| && t[x].index == s;
    var y :| 0 <= y < |t| && t[y].index == r;
    ArrangedOccurs(counts, t, x);
    ArrangedOccurs(counts, t, y);
    var i, j := if x < y then x else y, if x < y then y else x;
    assert Rank(t[i], KEY) <= Rank(t[j], KEY);
    assert RankedAt(sizes, t, c, x) && RankedAt(sizes, t, c, y);
    InPlaceOnce(c, sizes[s], sizes[r], |t|, x, y);
  }
}
