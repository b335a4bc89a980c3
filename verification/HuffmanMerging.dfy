/** Why merging the two lightest items again and again leads to a code that no
    other code is shorter than. */
module HuffmanMerging {
  import opened HuffmanCode

  function Sum(w: seq<nat>): nat {
    if w == [] then 0 else w[0] + Sum(w[1..])
  }

  lemma SumFrom(w: seq<nat>, i: nat)
    requires i < |w|
    ensures Sum(w[i..]) == w[i] + Sum(w[i + 1..])
  {
    assert w[i..][1..] == w[i + 1..];
  }

  lemma {:induction false} SumAppend(v: seq<nat>, w: seq<nat>)
    ensures Sum(v + w) == Sum(v) + Sum(w)
  {
    if v == [] {
      assert v + w == w;
    } else {
      assert (v + w)[1..] == v[1..] + w;
      SumAppend(v[1..], w);
    }
  }

  lemma SumMore(w: seq<nat>, x: nat)
    ensures Sum(w + [x]) == Sum(w) + x
  {
    SumAppend(w, [x]);
    assert [x][1..] == [];
  }

  lemma SumUpdate(w: seq<nat>, i: nat, x: nat)
    requires i < |w|
    ensures Sum(w[i := x]) + w[i] == Sum(w) + x
  {
    SumAppend(w[..i], w[i..]);
    SumFrom(w, i);
    assert w == w[..i] + w[i..];
    var v := w[i := x];
    SumAppend(v[..i], v[i..]);
    SumFrom(v, i);
    assert v == v[..i] + v[i..] && v[..i] == w[..i] && v[i + 1..] == w[i + 1..];
  }

  lemma {:induction false} SumMultiple(w: seq<nat>, p: nat)
    requires p > 0 && forall i :: 0 <= i < |w| ==> w[i] % p == 0
    ensures Sum(w) % p == 0
  {
    if w != [] {
      SumMultiple(w[1..], p);
      AddMultiple(w[0], Sum(w[1..]), p);
    }
  }

  lemma AddMultiple(a: nat, b: nat, p: nat)
    requires p > 0 && a % p == 0 && b % p == 0
    ensures (a + b) % p == 0
  {
    assert a == p * (a / p) && b == p * (b / p);
    assert a + b == p * (a / p + b / p);
    MultipleOf(a / p + b / p, p);
  }

  lemma MultipleOf(q: nat, p: nat)
    requires p > 0
    ensures p * q % p == 0
  {
    ModUnique(p * q, p, q, 0);
  }

  lemma {:induction false} PowMultiple(k: nat, m: nat)
    requires m <= k
    ensures Pow2(k) % Pow2(m) == 0
    decreases k
  {
    if m < k {
      PowMultiple(k - 1, m);
      AddMultiple(Pow2(k - 1), Pow2(k - 1), Pow2(m));
    } else {
      MultipleOf(1, Pow2(m));
    }
  }

  /** Of two multiples the smaller is smaller by the unit at least. */
  lemma NextMultiple(a: nat, b: nat, p: nat)
    requires p > 0 && a % p == 0 && b % p == 0 && a < b
    ensures a + p <= b
  {
    var c, d := a / p, b / p;
    assert a == p * c && b == p * d;
    TimesOrder(p, d, c);
    TimesOrder(p, c + 1, d);
  }

  lemma TimesOrder(p: nat, c: nat, d: nat)
    ensures c <= d ==> p * c <= p * d
  {
  }

  /** Items to be given code words, at fixed places. */
  datatype Slot = Gone | Item(weight: nat)

  function CostAt(s: Slot, len: nat): nat { if s.Item? then s.weight * len else 0 }

  /** The part of 2^k that a word takes up. */
  function ShareAt(s: Slot, len: nat, k: nat): nat { if s.Item? && len <= k then Pow2(k - len) else 0 }

  function Costs(s: seq<Slot>, lens: seq<nat>): (c: seq<nat>)
    requires |lens| == |s|
    ensures |c| == |s| && forall i :: 0 <= i < |s| ==> c[i] == CostAt(s[i], lens[i])
  {
    seq(|s|, i requires 0 <= i < |s| => CostAt(s[i], lens[i]))
  }

  function Shares(s: seq<Slot>, lens: seq<nat>, k: nat): (c: seq<nat>)
    requires |lens| == |s|
    ensures |c| == |s| && forall i :: 0 <= i < |s| ==> c[i] == ShareAt(s[i], lens[i], k)
  {
    seq(|s|, i requires 0 <= i < |s| => ShareAt(s[i], lens[i], k))
  }

  function Cost(s: seq<Slot>, lens: seq<nat>): nat
    requires |lens| == |s|
  {
    Sum(Costs(s, lens))
  }

  function Share(s: seq<Slot>, lens: seq<nat>, k: nat): nat
    requires |lens| == |s|
  {
    Sum(Shares(s, lens, k))
  }

  /** There is a code with these lengths, none above `k`. */
  predicate Fits(s: seq<Slot>, lens: seq<nat>, k: nat) {
    && |lens| == |s|
    && (forall i :: 0 <= i < |s| && s[i].Item? ==> lens[i] <= k)
    && Share(s, lens, k) <= Pow2(k)
  }

  /** No code for the items costs less than `b`. */
  ghost predicate CostsAtLeast(s: seq<Slot>, b: nat) {
    forall lens, k :: Fits(s, lens, k) ==> Cost(s, lens) >= b
  }

  lemma Change(s: seq<Slot>, lens: seq<nat>, k: nat, i: nat, x: Slot, l: nat)
    requires |lens| == |s| && i < |s|
    ensures Cost(s[i := x], lens[i := l]) + CostAt(s[i], lens[i]) == Cost(s, lens) + CostAt(x, l)
    ensures Share(s[i := x], lens[i := l], k) + ShareAt(s[i], lens[i], k) == Share(s, lens, k) + ShareAt(x, l, k)
  {
    hide Sum, CostAt, ShareAt;
    assert Costs(s[i := x], lens[i := l]) == Costs(s, lens)[i := CostAt(x, l)];
    assert Shares(s[i := x], lens[i := l], k) == Shares(s, lens, k)[i := ShareAt(x, l, k)];
    SumUpdate(Costs(s, lens), i, CostAt(x, l));
    SumUpdate(Shares(s, lens, k), i, ShareAt(x, l, k));
  }

  lemma SwapProducts(v: nat, w: nat, a: nat, b: nat)
    requires v <= w && a <= b
    ensures v * b + w * a <= v * a + w * b
  {
    assert (w - v) * (b - a) >= 0;
  }

  /** Giving the longer word to the lighter item costs no more. */
  lemma Exchange(s: seq<Slot>, lens: seq<nat>, k: nat, i: nat, a: nat) returns (to: seq<nat>)
    requires Fits(s, lens, k) && i < |s| && a < |s| && s[i].Item? && s[a].Item?
    requires s[i].weight <= s[a].weight && lens[i] <= lens[a]
    ensures to == lens[i := lens[a]][a := lens[i]]
    ensures Fits(s, to, k) && Cost(s, to) <= Cost(s, lens)
  {
    hide Cost, Share;
    to := lens[i := lens[a]];
    Change(s, lens, k, i, s[i], lens[a]);
    Change(s, to, k, a, s[a], lens[i]);
    assert s[i := s[i]] == s && s[a := s[a]] == s;
    to := to[a := lens[i]];
    if i != a {
      SwapProducts(s[i].weight, s[a].weight, lens[i], lens[a]);
    } else {
      assert to == lens;
    }
  }

  /** An item with a longest word, other than `skip`. */
  lemma Longest(s: seq<Slot>, lens: seq<nat>, x: nat, skip: nat) returns (a: nat)
    requires |lens| == |s| && x < |s| && s[x].Item? && x != skip
    ensures a < |s| && s[a].Item? && a != skip
    ensures forall y :: 0 <= y < |s| && s[y].Item? && y != skip ==> lens[y] <= lens[a]
  {
    a := x;
    var n := 0;
    while n < |s|
      invariant n <= |s| && a < |s| && s[a].Item? && a != skip
      invariant forall y :: 0 <= y < n && s[y].Item? && y != skip ==> lens[y] <= lens[a]
    {
      if s[n].Item? && n != skip && lens[n] > lens[a] { a := n; }
      n := n + 1;
    }
  }

  /** A single longest word may be cut to the length of the next. */
  lemma Shorten(s: seq<Slot>, lens: seq<nat>, k: nat, i: nat, l: nat) returns (to: seq<nat>)
    requires Fits(s, lens, k) && i < |s| && s[i].Item? && l <= lens[i]
    requires forall y :: 0 <= y < |s| && s[y].Item? && y != i ==> lens[y] <= l
    ensures to == lens[i := l] && Fits(s, to, k) && Cost(s, to) <= Cost(s, lens)
  {
    hide Cost, Share;
    to := lens[i := l];
    Change(s, lens, k, i, s[i], l);
    assert s[i := s[i]] == s;
    assert s[i].weight * l <= s[i].weight * lens[i];
    if l < lens[i] {
      var p := Pow2(k - l);
      Change(s, lens, k, i, Gone, l);
      Others(s[i := Gone], to, k, l);
      PowMultiple(k, k - l);
      NextMultiple(Share(s[i := Gone], to, k), Pow2(k), p);
    }
  }

  lemma Others(s: seq<Slot>, lens: seq<nat>, k: nat, l: nat)
    requires |lens| == |s| && l <= k && forall y :: 0 <= y < |s| && s[y].Item? ==> lens[y] <= l
    ensures Share(s, lens, k) % Pow2(k - l) == 0
  {
    hide Sum, Pow2, ShareAt;
    forall y | 0 <= y < |s|
      ensures Shares(s, lens, k)[y] % Pow2(k - l) == 0
    {
      ShareMultiple(s[y], lens[y], k, l);
    }
    SumMultiple(Shares(s, lens, k), Pow2(k - l));
  }

  lemma ShareMultiple(s: Slot, len: nat, k: nat, l: nat)
    requires l <= k && (s.Item? ==> len <= l)
    ensures ShareAt(s, len, k) % Pow2(k - l) == 0
  {
    hide Pow2;
    if s.Item? { PowMultiple(k - len, k - l); } else { MultipleOf(0, Pow2(k - l)); }
  }

  /** No item is lighter than the two at `i` and `j`. */
  ghost predicate Lightest(s: seq<Slot>, i: nat, j: nat) {
    && i < |s| && j < |s| && i != j && s[i].Item? && s[j].Item?
    && forall x :: 0 <= x < |s| && x != i && x != j && s[x].Item? ==> s[i].weight <= s[x].weight && s[j].weight <= s[x].weight
  }

  function Merged(s: seq<Slot>, i: nat, j: nat, m: nat): seq<Slot>
    requires i < |s| && j < |s| && m < |s| && s[i].Item? && s[j].Item?
  {
    s[i := Gone][j := Gone][m := Item(s[i].weight + s[j].weight)]
  }

  /** What merging two items with words of one length does. */
  lemma MergeCosts(s: seq<Slot>, lens: seq<nat>, k: nat, i: nat, j: nat, m: nat)
    requires |lens| == |s| && i < |s| && j < |s| && i != j && m < |s| && m != i && m != j
    requires s[i].Item? && s[j].Item? && s[m].Gone? && lens[i] == lens[j] == lens[m] + 1
    ensures Cost(Merged(s, i, j, m), lens) + s[i].weight + s[j].weight == Cost(s, lens)
    ensures lens[i] <= k ==> Share(Merged(s, i, j, m), lens, k) == Share(s, lens, k)
  {
    hide Cost, Share;
    var s1, s2, d := s[i := Gone], s[i := Gone][j := Gone], lens[m];
    Change(s, lens, k, i, Gone, d + 1);
    Change(s1, lens, k, j, Gone, d + 1);
    Change(s2, lens, k, m, Item(s[i].weight + s[j].weight), d);
    assert lens[i := d + 1] == lens && lens[j := d + 1] == lens && lens[m := d] == lens;
    assert s[i].weight * (d + 1) + s[j].weight * (d + 1)
        == (s[i].weight + s[j].weight) * d + s[i].weight + s[j].weight;
  }

  /** The two lightest items may be taken to have the longest words, and equal ones. */
  lemma Settle(s: seq<Slot>, lens: seq<nat>, k: nat, i: nat, j: nat) returns (to: seq<nat>)
    requires Lightest(s, i, j) && s[i].weight <= s[j].weight && Fits(s, lens, k)
    ensures Fits(s, to, k) && to[i] == to[j] && Cost(s, to) <= Cost(s, lens)
  {
    hide Cost, Share;
    var a := Longest(s, lens, i, |s|);
    to := Exchange(s, lens, k, i, a);
    var b := Longest(s, to, j, i);
    to := Exchange(s, to, k, j, b);
    to := Shorten(s, to, k, i, to[j]);
  }

  lemma NotBothEmpty(s: seq<Slot>, lens: seq<nat>, k: nat, i: nat, j: nat)
    requires Fits(s, lens, k) && i < |s| && j < |s| && i != j && s[i].Item? && s[j].Item?
    ensures lens[i] > 0 || lens[j] > 0
  {
    hide Cost, Share;
    if lens[i] == 0 && lens[j] == 0 {
      Change(s, lens, k, i, Gone, 0);
      Change(s[i := Gone], lens[i := 0], k, j, Gone, 0);
      assert false;
    }
  }

  /** What the merged items cannot be coded in less than, with one bit more for
      each of the two, the items before cannot either. */
  lemma MergedLeast(s: seq<Slot>, i: nat, j: nat, m: nat, b: nat)
    requires Lightest(s, i, j) && m < |s| && s[m].Gone? && CostsAtLeast(Merged(s, i, j, m), b)
    ensures CostsAtLeast(s, b + s[i].weight + s[j].weight)
  {
    hide CostsAtLeast;
    if s[j].weight < s[i].weight {
      assert Merged(s, i, j, m) == Merged(s, j, i, m);
      OrderedLeast(s, j, i, m, b);
    } else {
      OrderedLeast(s, i, j, m, b);
    }
  }

  lemma OrderedLeast(s: seq<Slot>, i: nat, j: nat, m: nat, b: nat)
    requires Lightest(s, i, j) && m < |s| && s[m].Gone? && CostsAtLeast(Merged(s, i, j, m), b)
    requires s[i].weight <= s[j].weight
    ensures CostsAtLeast(s, b + s[i].weight + s[j].weight)
  {
    hide Cost, Share;
    forall lens, k | Fits(s, lens, k)
      ensures Cost(s, lens) >= b + s[i].weight + s[j].weight
    {
      var to := Settle(s, lens, k, i, j);
      NotBothEmpty(s, to, k, i, j);
      CarryOver(s, to, k, i, j, m);
    }
  }

  lemma CarryOver(s: seq<Slot>, lens: seq<nat>, k: nat, i: nat, j: nat, m: nat)
    requires Fits(s, lens, k) && i < |s| && j < |s| && i != j && m < |s| && m != i && m != j
    requires s[i].Item? && s[j].Item? && s[m].Gone? && lens[i] == lens[j] > 0
    ensures Fits(Merged(s, i, j, m), lens[m := lens[i] - 1], k)
    ensures Cost(Merged(s, i, j, m), lens[m := lens[i] - 1]) + s[i].weight + s[j].weight == Cost(s, lens)
  {
    hide Cost, Share;
    var to := lens[m := lens[i] - 1];
    Change(s, lens, k, m, Gone, to[m]);
    assert s[m := Gone] == s;
    MergeCosts(s, to, k, i, j, m);
  }

  /** Merging for sorted weights: node `k` is made of the inner nodes `r[k]` to
      `r[k + 1]` and of leaves, two in all, in order. */
  ghost predicate Trace(r: seq<nat>, n: nat) {
    && 1 <= |r| <= n && r[0] == 0
    && (forall k :: 0 <= k < |r| ==> r[k] <= k && 2 * k - r[k] <= n)
    && (forall k, l :: 0 <= k && l == k + 1 && l < |r| ==> r[k] <= r[l] <= r[k] + 2 && r[l] <= k)
  }

  function LeafAt(r: seq<nat>, k: nat): int
    requires k < |r|
  {
    2 * k - r[k]
  }

  /** The items there are when `k` nodes have been made: inner nodes first, then leaves. */
  function Forest(orig: seq<nat>, w: seq<nat>, r: seq<nat>, k: nat): (s: seq<Slot>)
    requires |orig| >= 1 && k < |r| && k <= |w|
    ensures |s| == 2 * |orig| - 1
    ensures forall i :: 0 <= i < |s| ==> s[i] == SlotAt(orig, w, r, k, i)
  {
    seq(2 * |orig| - 1, i requires 0 <= i < 2 * |orig| - 1 => SlotAt(orig, w, r, k, i))
  }

  function SlotAt(orig: seq<nat>, w: seq<nat>, r: seq<nat>, k: nat, i: nat): Slot
    requires |orig| >= 1 && k < |r| && k <= |w| && i < 2 * |orig| - 1
  {
    var n := |orig| - 1;
    if i < n then (if r[k] <= i < k then Item(w[i]) else Gone)
    else if LeafAt(r, k) <= i - n then Item(orig[i - n]) else Gone
  }

  function One(r: seq<nat>, n: nat, k: nat): int
    requires k + 1 < |r|
  {
    if r[k + 1] > r[k] then r[k] else n - 1 + LeafAt(r, k)
  }

  function Other(r: seq<nat>, n: nat, k: nat): int
    requires k + 1 < |r|
  {
    if r[k + 1] == r[k] + 2 then r[k] + 1 else if r[k + 1] > r[k] then n - 1 + LeafAt(r, k) else n + LeafAt(r, k)
  }

  /** Node `k` is made of two lightest items. */
  ghost predicate MadeAt(orig: seq<nat>, w: seq<nat>, r: seq<nat>, k: nat) {
    && |orig| >= 2 && k + 1 < |r| && k < |w| && k < |orig| - 1
    && var s, i, j := Forest(orig, w, r, k), One(r, |orig|, k), Other(r, |orig|, k);
    i >= 0 && j >= 0 && Lightest(s, i, j) && w[k] == s[i].weight + s[j].weight
  }

  ghost predicate Made(orig: seq<nat>, w: seq<nat>, r: seq<nat>) {
    |orig| >= 2 && |r| == |w| + 1 && Trace(r, |orig|) && forall k :: 0 <= k < |w| ==> MadeAt(orig, w, r, k)
  }

  lemma ForestStep(orig: seq<nat>, w: seq<nat>, r: seq<nat>, k: nat)
    requires Made(orig, w, r) && k < |w|
    ensures MadeAt(orig, w, r, k) && Forest(orig, w, r, k)[k].Gone?
    ensures Forest(orig, w, r, k + 1) == Merged(Forest(orig, w, r, k), One(r, |orig|, k), Other(r, |orig|, k), k)
  {
    assert MadeAt(orig, w, r, k);
    assert r[k] <= r[k + 1] <= r[k] + 2 && r[k + 1] <= k;
    assert LeafAt(r, k + 1) == LeafAt(r, k) + 2 - (r[k + 1] - r[k]);
  }

  /** Depths of the inner nodes and of the leaves, one below the node they are part of. */
  ghost predicate Depths(r: seq<nat>, n: nat, depths: seq<nat>, lens: seq<nat>) {
    && n >= 2 && |r| == n && Trace(r, n) && |depths| == n - 1 && |lens| == n && depths[n - 2] == 0
    && (forall k :: 0 <= k < n - 1 ==> DepthsAt(r, k, depths, lens))
  }

  ghost predicate DepthsAt(r: seq<nat>, k: nat, depths: seq<nat>, lens: seq<nat>) {
    && k + 1 < |r| && k < |depths|
    && (forall i :: r[k] <= i < r[k + 1] && i < |depths| ==> depths[i] == depths[k] + 1)
    && (forall j :: LeafAt(r, k) <= j < LeafAt(r, k + 1) && 0 <= j < |lens| ==> lens[j] == depths[k] + 1)
  }

  lemma {:induction false} ForestOptimal(orig: seq<nat>, w: seq<nat>, r: seq<nat>, depths: seq<nat>, lens: seq<nat>, k: nat)
    requires Made(orig, w, r) && Depths(r, |orig|, depths, lens) && k <= |w|
    ensures CostsAtLeast(Forest(orig, w, r, k), Cost(Forest(orig, w, r, k), depths + lens))
    decreases |w| - k
  {
    hide Cost, CostsAtLeast, Made, Depths;
    Sizes(orig, w, r, depths, lens);
    var n, s, u := |orig|, Forest(orig, w, r, k), depths + lens;
    if k == |w| {
      LastCost(orig, w, r, depths, lens);
      Trivially(s);
    } else {
      ForestOptimal(orig, w, r, depths, lens, k + 1);
      ForestStep(orig, w, r, k);
      var i: nat, j: nat := One(r, n, k), Other(r, n, k);
      PickedDepths(orig, w, r, depths, lens, k);
      MergeCosts(s, u, 0, i, j, k);
      MergedLeast(s, i, j, k, Cost(Forest(orig, w, r, k + 1), u));
    }
  }

  lemma Sizes(orig: seq<nat>, w: seq<nat>, r: seq<nat>, depths: seq<nat>, lens: seq<nat>)
    requires Made(orig, w, r) && Depths(r, |orig|, depths, lens)
    ensures |r| == |orig| && |w| == |orig| - 1 == |depths| && |lens| == |orig| >= 2
    ensures r[0] == 0 && forall k :: 0 <= k < |r| ==> 0 <= r[k] <= k
  {
  }

  lemma Trivially(s: seq<Slot>)
    ensures CostsAtLeast(s, 0)
  {
  }

  lemma {:induction false} SumZero(w: seq<nat>)
    requires forall i :: 0 <= i < |w| ==> w[i] == 0
    ensures Sum(w) == 0
  {
    if w != [] { SumZero(w[1..]); }
  }

  lemma LastCost(orig: seq<nat>, w: seq<nat>, r: seq<nat>, depths: seq<nat>, lens: seq<nat>)
    requires Made(orig, w, r) && Depths(r, |orig|, depths, lens)
    ensures |w| < |r| && |depths + lens| == 2 * |orig| - 1
    ensures Cost(Forest(orig, w, r, |w|), depths + lens) == 0
  {
    hide Sum;
    var n := |orig|;
    assert r[n - 2] <= r[n - 1] <= n - 2 && 2 * (n - 1) - r[n - 1] <= n;
    var s, u := Forest(orig, w, r, n - 1), depths + lens;
    forall i | 0 <= i < |s|
      ensures Costs(s, u)[i] == 0
    {
      if s[i].Item? { assert i == n - 2 && u[i] == 0; }
    }
    SumZero(Costs(s, u));
  }

  lemma PickedDepths(orig: seq<nat>, w: seq<nat>, r: seq<nat>, depths: seq<nat>, lens: seq<nat>, k: nat)
    requires Made(orig, w, r) && Depths(r, |orig|, depths, lens) && k < |w|
    ensures var n, u := |orig|, depths + lens;
            && 0 <= One(r, n, k) < |u| && 0 <= Other(r, n, k) < |u| && k < |u|
            && One(r, n, k) != k && Other(r, n, k) != k
            && u[One(r, n, k)] == u[Other(r, n, k)] == u[k] + 1
  {
    assert MadeAt(orig, w, r, k) && DepthsAt(r, k, depths, lens);
    assert r[k] <= r[k + 1] <= r[k] + 2 && r[k + 1] <= k;
  }

  /** The Kraft sum of some lengths, in units of 2^-k. */
  function KraftSum(lens: seq<nat>, k: nat): nat {
    if lens == [] then 0 else (if lens[0] <= k then Pow2(k - lens[0]) else 0) + KraftSum(lens[1..], k)
  }

  /** The bits a text takes whose symbols occur as often as the weights say. */
  function TextLength(weights: seq<nat>, lens: seq<nat>): nat
    requires |weights| == |lens|
  {
    if lens == [] then 0 else weights[0] * lens[0] + TextLength(weights[1..], lens[1..])
  }

  /** No prefix code makes a text with these weights shorter. */
  ghost predicate Shortest(weights: seq<nat>, lens: seq<nat>) {
    && |lens| == |weights|
    && forall other: seq<nat>, k: nat :: |other| == |weights| && (forall i :: 0 <= i < |other| ==> other[i] <= k)
                         && KraftSum(other, k) <= Pow2(k)
                         ==> TextLength(weights, lens) <= TextLength(weights, other)
  }

  function Leafs(orig: seq<nat>): seq<Slot> { seq(|orig|, i requires 0 <= i < |orig| => Item(orig[i])) }

  lemma {:induction false} LeafCosts(orig: seq<nat>, lens: seq<nat>, k: nat)
    requires |lens| == |orig|
    ensures Cost(Leafs(orig), lens) == TextLength(orig, lens)
    ensures Share(Leafs(orig), lens, k) == KraftSum(lens, k)
  {
    var s := Leafs(orig);
    if orig != [] {
      LeafCosts(orig[1..], lens[1..], k);
      assert Costs(s, lens)[1..] == Costs(Leafs(orig[1..]), lens[1..]);
      assert Shares(s, lens, k)[1..] == Shares(Leafs(orig[1..]), lens[1..], k);
    }
  }

  lemma CostsApart(s: seq<Slot>, t: seq<Slot>, u: seq<nat>, v: seq<nat>, k: nat)
    requires |u| == |s| && |v| == |t|
    ensures Cost(s + t, u + v) == Cost(s, u) + Cost(t, v)
    ensures Share(s + t, u + v, k) == Share(s, u, k) + Share(t, v, k)
  {
    hide Sum;
    SumAppend(Costs(s, u), Costs(t, v));
    SumAppend(Shares(s, u, k), Shares(t, v, k));
    assert Costs(s + t, u + v) == Costs(s, u) + Costs(t, v);
    assert Shares(s + t, u + v, k) == Shares(s, u, k) + Shares(t, v, k);
  }

  lemma NoCosts(s: seq<Slot>, u: seq<nat>, k: nat)
    requires |u| == |s| && forall i :: 0 <= i < |s| ==> s[i].Gone?
    ensures Cost(s, u) == 0 && Share(s, u, k) == 0
  {
    hide Sum;
    SumZero(Costs(s, u));
    SumZero(Shares(s, u, k));
  }

  /** At the beginning there are only leaves. */
  lemma FirstForest(orig: seq<nat>, w: seq<nat>, r: seq<nat>, depths: seq<nat>, lens: seq<nat>, k: nat)
    requires |orig| >= 1 && |r| > 0 && r[0] == 0 && |depths| == |orig| - 1 && |lens| == |orig|
    ensures Cost(Forest(orig, w, r, 0), depths + lens) == TextLength(orig, lens)
    ensures Share(Forest(orig, w, r, 0), depths + lens, k) == KraftSum(lens, k)
  {
    hide Cost, Share;
    var none := seq(|depths|, _ => Gone);
    LeafCosts(orig, lens, k);
    NoCosts(none, depths, k);
    CostsApart(none, Leafs(orig), depths, lens, k);
    var s, t := Forest(orig, w, r, 0), none + Leafs(orig);
    assert |s| == |t| && forall i :: 0 <= i < |s| ==> s[i] == t[i];
    assert s == t;
  }

  lemma TreeShortest(orig: seq<nat>, w: seq<nat>, r: seq<nat>, depths: seq<nat>, lens: seq<nat>)
    requires Made(orig, w, r) && Depths(r, |orig|, depths, lens)
    ensures Shortest(orig, lens)
  {
    hide Cost, Share, Made, Depths, KraftSum, TextLength;
    Sizes(orig, w, r, depths, lens);
    ForestOptimal(orig, w, r, depths, lens, 0);
    FirstForest(orig, w, r, depths, lens, 0);
    forall other: seq<nat>, k: nat | |other| == |orig| && (forall i :: 0 <= i < |other| ==> other[i] <= k)
                         && KraftSum(other, k) <= Pow2(k)
      ensures TextLength(orig, lens) <= TextLength(orig, other)
    {
      FirstForest(orig, w, r, depths, other, k);
      assert Fits(Forest(orig, w, r, 0), depths + other, k);
    }
  }
}
