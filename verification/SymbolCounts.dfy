/** Symbols with their counts, in any order, and the cheapest codes for them. */
module SymbolCounts {
  import opened HuffmanCode
  import opened HuffmanMerging
  import HuffmanDepths
  import opened RadixSort

  /** The symbols that occur, in order. */
  function Occurring(counts: seq<nat>, n: nat): seq<Sym>
    requires n <= |counts|
  {
    if n == 0 then []
    else Occurring(counts, n - 1) + if counts[n - 1] > 0 then [Sym(counts[n - 1], n - 1)] else []
  }

  predicate Occurs(counts: seq<nat>, x: Sym) {
    x.index < |counts| && x.key == counts[x.index] > 0
  }

  lemma {:induction false} OccurringOnce(counts: seq<nat>, n: nat, x: Sym)
    requires n <= |counts|
    ensures multiset(Occurring(counts, n))[x] == if Occurs(counts, x) && x.index < n then 1 else 0
  {
    hide Occurring;
    if n == 0 {
      OccurringNone(counts);
    } else {
      OccurringOnce(counts, n - 1, x);
      var o, y := Occurring(counts, n - 1), Sym(counts[n - 1], n - 1);
      OneMoreOf(o, y, x);
      OccurringStep(counts, n, o, y);
    }
  }

  lemma OccurringNone(counts: seq<nat>)
    ensures Occurring(counts, 0) == []
  {
  }

  lemma OccurringStep(counts: seq<nat>, n: nat, o: seq<Sym>, y: Sym)
    requires 0 < n <= |counts| && o == Occurring(counts, n - 1) && y == Sym(counts[n - 1], n - 1)
    ensures Occurring(counts, n) == if counts[n - 1] > 0 then o + [y] else o
  {
    assert o + [] == o;
  }

  lemma OneMoreOf(o: seq<Sym>, y: Sym, x: Sym)
    ensures multiset(o + [y])[x] == multiset(o)[x] + if x == y then 1 else 0
  {
    assert multiset(o + [y]) == multiset(o) + multiset{y};
  }

  /** The same symbols in any order. */
  ghost predicate Arranged(counts: seq<nat>, t: seq<Sym>) {
    multiset(t) == multiset(Occurring(counts, |counts|))
  }

  lemma ArrangedOccurs(counts: seq<nat>, t: seq<Sym>, i: nat)
    requires Arranged(counts, t) && i < |t|
    ensures Occurs(counts, t[i])
  {
    assert t[i] in multiset(t);
    OccurringOnce(counts, |counts|, t[i]);
  }

  lemma ArrangedDistinct(counts: seq<nat>, t: seq<Sym>, i: nat, j: nat)
    requires Arranged(counts, t) && i < j < |t|
    ensures t[i].index != t[j].index
  {
    ArrangedOccurs(counts, t, i);
    ArrangedOccurs(counts, t, j);
    if t[i].index == t[j].index {
      OccurringOnce(counts, |counts|, t[i]);
      TwiceIn(t, i, j);
    }
  }

  lemma TwiceIn(t: seq<Sym>, i: nat, j: nat)
    requires i < j < |t| && t[i] == t[j]
    ensures multiset(t)[t[i]] >= 2
  {
    assert t == t[..j] + [t[j]] + t[j + 1..];
    assert t[..j][i] == t[i];
  }

  lemma ArrangedAll(counts: seq<nat>, t: seq<Sym>, s: nat)
    requires Arranged(counts, t) && s < |counts| && counts[s] > 0
    ensures exists i :: 0 <= i < |t| && t[i].index == s
  {
    var x := Sym(counts[s], s);
    OccurringOnce(counts, |counts|, x);
    assert x in multiset(t);
    assert x in t;
  }

  /** The weights of the symbols. */
  function Weights(t: seq<Sym>): seq<nat> { seq(|t|, i requires 0 <= i < |t| => t[i].key) }

  /** The lengths of the symbols. */
  function LensOf(t: seq<Sym>, lens: seq<nat>): seq<nat>
    requires forall i :: 0 <= i < |t| ==> t[i].index < |lens|
  {
    seq(|t|, i requires 0 <= i < |t| => lens[t[i].index])
  }

  function SumCounts(counts: seq<nat>, n: nat): nat
    requires n <= |counts|
  {
    if n == 0 then 0 else SumCounts(counts, n - 1) + counts[n - 1]
  }

  /** The bits of a text with these counts. */
  function TextBits(counts: seq<nat>, lens: seq<nat>, n: nat): nat
    requires n <= |counts| == |lens|
  {
    if n == 0 then 0 else TextBits(counts, lens, n - 1) + counts[n - 1] * lens[n - 1]
  }

  /** The Kraft sum of the symbols that occur. */
  function UsedKraft(counts: seq<nat>, lens: seq<nat>, k: nat, n: nat): nat
    requires n <= |counts| == |lens|
  {
    if n == 0 then 0
    else UsedKraft(counts, lens, k, n - 1)
         + if counts[n - 1] > 0 && lens[n - 1] <= k then Pow2(k - lens[n - 1]) else 0
  }

  /** No prefix code for the symbols that occur makes the text shorter. */
  ghost predicate Cheapest(counts: seq<nat>, sizes: seq<nat>) {
    && |sizes| == |counts|
    && forall other: seq<nat>, k: nat :: |other| == |counts| && (forall s :: 0 <= s < |other| && counts[s] > 0 ==> other[s] <= k)
                         && UsedKraft(counts, other, k, |counts|) <= Pow2(k)
                         ==> TextBits(counts, sizes, |counts|) <= TextBits(counts, other, |counts|)
  }

  function SumOver(t: seq<Sym>, f: Sym -> nat): nat {
    if t == [] then 0 else f(t[0]) + SumOver(t[1..], f)
  }

  lemma {:induction false} SumOverAppend(s: seq<Sym>, t: seq<Sym>, f: Sym -> nat)
    ensures SumOver(s + t, f) == SumOver(s, f) + SumOver(t, f)
  {
    if s == [] {
      assert s + t == t;
    } else {
      assert (s + t)[1..] == s[1..] + t;
      SumOverAppend(s[1..], t, f);
    }
  }

  lemma {:induction false} SumOverSame(s: seq<Sym>, t: seq<Sym>, f: Sym -> nat)
    requires multiset(s) == multiset(t)
    ensures SumOver(s, f) == SumOver(t, f)
  {
    if s == [] {
      assert |multiset(t)| == 0;
    } else {
      assert s[0] in multiset(t);
      var j :| 0 <= j < |t| && t[j] == s[0];
      WithoutFirst(s, t, j);
      SumOverSame(s[1..], t[..j] + t[j + 1..], f);
      SumOverAppend(t[..j], t[j + 1..], f);
      SumOverAppend(t[..j], t[j..], f);
      assert t == t[..j] + t[j..] && t[j..][1..] == t[j + 1..];
    }
  }

  lemma WithoutFirst(s: seq<Sym>, t: seq<Sym>, j: nat)
    requires multiset(s) == multiset(t) && s != [] && j < |t| && t[j] == s[0]
    ensures multiset(s[1..]) == multiset(t[..j] + t[j + 1..])
  {
    assert s == [s[0]] + s[1..];
    assert t == t[..j] + [t[j]] + t[j + 1..];
    assert multiset(s[1..]) == multiset(s) - multiset{s[0]};
    assert multiset(t[..j] + t[j + 1..]) == multiset(t) - multiset{t[j]};
  }

  function CountsSum(counts: seq<nat>, f: Sym -> nat, n: nat): nat
    requires n <= |counts|
  {
    if n == 0 then 0 else CountsSum(counts, f, n - 1) + if counts[n - 1] > 0 then f(Sym(counts[n - 1], n - 1)) else 0
  }

  lemma {:induction false} OccurringSum(counts: seq<nat>, n: nat, f: Sym -> nat)
    requires n <= |counts|
    ensures SumOver(Occurring(counts, n), f) == CountsSum(counts, f, n)
  {
    if n > 0 {
      OccurringSum(counts, n - 1, f);
      SumOverAppend(Occurring(counts, n - 1), [Sym(counts[n - 1], n - 1)], f);
      OccurringStep(counts, n, Occurring(counts, n - 1), Sym(counts[n - 1], n - 1));
    }
  }

  lemma ArrangedSum(counts: seq<nat>, t: seq<Sym>, f: Sym -> nat)
    requires Arranged(counts, t)
    ensures SumOver(t, f) == CountsSum(counts, f, |counts|)
  {
    OccurringSum(counts, |counts|, f);
    SumOverSame(t, Occurring(counts, |counts|), f);
  }

  lemma {:induction false} WeightsOver(t: seq<Sym>, f: Sym -> nat)
    requires forall x :: f(x) == x.key
    ensures Sum(Weights(t)) == SumOver(t, f)
  {
    if t != [] {
      WeightsOver(t[1..], f);
      assert Weights(t)[1..] == Weights(t[1..]);
    }
  }

  lemma {:induction false} WeightsCounted(counts: seq<nat>, f: Sym -> nat, n: nat)
    requires n <= |counts| && forall x :: f(x) == x.key
    ensures CountsSum(counts, f, n) == SumCounts(counts, n)
  {
    if n > 0 { WeightsCounted(counts, f, n - 1); }
  }

  lemma WeightsSum(counts: seq<nat>, t: seq<Sym>)
    requires Arranged(counts, t)
    ensures Sum(Weights(t)) == SumCounts(counts, |counts|)
  {
    var f := (x: Sym) => x.key;
    ArrangedSum(counts, t, f);
    WeightsOver(t, f);
    WeightsCounted(counts, f, |counts|);
  }

  function LenOf(lens: seq<nat>, x: Sym): nat { if x.index < |lens| then lens[x.index] else 0 }

  lemma {:induction false} TextOver(t: seq<Sym>, lens: seq<nat>, f: Sym -> nat)
    requires forall i :: 0 <= i < |t| ==> t[i].index < |lens|
    requires forall x :: f(x) == x.key * LenOf(lens, x)
    ensures TextLength(Weights(t), LensOf(t, lens)) == SumOver(t, f)
  {
    if t != [] {
      TextOver(t[1..], lens, f);
      assert Weights(t)[1..] == Weights(t[1..]) && LensOf(t, lens)[1..] == LensOf(t[1..], lens);
    }
  }

  lemma {:induction false} TextCounted(counts: seq<nat>, lens: seq<nat>, f: Sym -> nat, n: nat)
    requires n <= |counts| == |lens| && forall x :: f(x) == x.key * LenOf(lens, x)
    ensures CountsSum(counts, f, n) == TextBits(counts, lens, n)
  {
    if n > 0 { TextCounted(counts, lens, f, n - 1); }
  }

  function ShareOf(lens: seq<nat>, k: nat, x: Sym): nat {
    if LenOf(lens, x) <= k then Pow2(k - LenOf(lens, x)) else 0
  }

  lemma {:induction false} KraftOver(t: seq<Sym>, lens: seq<nat>, k: nat, f: Sym -> nat)
    requires forall i :: 0 <= i < |t| ==> t[i].index < |lens|
    requires forall x :: f(x) == ShareOf(lens, k, x)
    ensures KraftSum(LensOf(t, lens), k) == SumOver(t, f)
  {
    if t != [] {
      KraftOver(t[1..], lens, k, f);
      assert LensOf(t, lens)[1..] == LensOf(t[1..], lens);
    }
  }

  lemma {:induction false} KraftCounted(counts: seq<nat>, lens: seq<nat>, k: nat, f: Sym -> nat, n: nat)
    requires n <= |counts| == |lens| && forall x :: f(x) == ShareOf(lens, k, x)
    ensures CountsSum(counts, f, n) == UsedKraft(counts, lens, k, n)
  {
    if n > 0 { KraftCounted(counts, lens, k, f, n - 1); }
  }

  /** Text and Kraft sum do not depend on the order of the symbols. */
  lemma ArrangedText(counts: seq<nat>, t: seq<Sym>, lens: seq<nat>, k: nat)
    requires Arranged(counts, t) && |lens| == |counts| && forall i :: 0 <= i < |t| ==> t[i].index < |lens|
    ensures TextLength(Weights(t), LensOf(t, lens)) == TextBits(counts, lens, |counts|)
    ensures KraftSum(LensOf(t, lens), k) == UsedKraft(counts, lens, k, |counts|)
  {
    hide Arranged;
    var f, g := (x: Sym) => x.key * LenOf(lens, x), (x: Sym) => ShareOf(lens, k, x);
    ArrangedSum(counts, t, f);
    ArrangedSum(counts, t, g);
    TextOver(t, lens, f);
    TextCounted(counts, lens, f, |counts|);
    KraftOver(t, lens, k, g);
    KraftCounted(counts, lens, k, g, |counts|);
  }

  /** A shortest code for the symbols in some order is a cheapest one. */
  lemma ShortestCheapest(counts: seq<nat>, t: seq<Sym>, sizes: seq<nat>)
    requires Arranged(counts, t) && |sizes| == |counts| && (forall i :: 0 <= i < |t| ==> t[i].index < |sizes|)
    requires Shortest(Weights(t), LensOf(t, sizes))
    ensures Cheapest(counts, sizes)
  {
    hide KraftSum, TextLength, UsedKraft, TextBits;
    ArrangedText(counts, t, sizes, 0);
    forall other: seq<nat>, k: nat | |other| == |counts| && (forall s :: 0 <= s < |other| && counts[s] > 0 ==> other[s] <= k)
                         && UsedKraft(counts, other, k, |counts|) <= Pow2(k)
      ensures TextBits(counts, sizes, |counts|) <= TextBits(counts, other, |counts|)
    {
      ArrangedText(counts, t, other, k);
      forall i | 0 <= i < |t|
        ensures LensOf(t, other)[i] <= k
      {
        ArrangedOccurs(counts, t, i);
      }
    }
  }

  /** Sorted counts that fit sixteen bits together are what the tree can be built from. */
  lemma Weighable(counts: seq<nat>, t: seq<Sym>)
    requires Arranged(counts, t) && SortedBy(t, KEY) && SumCounts(counts, |counts|) < 65536
    ensures HuffmanDepths.Weighable(Weights(t)) && Sum(Weights(t)) == SumCounts(counts, |counts|)
  {
    WeightsSum(counts, t);
    forall i | 0 <= i < |t|
      ensures Weights(t)[i] >= 1
    {
      ArrangedOccurs(counts, t, i);
    }
    forall i, j | 0 <= i <= j < |t|
      ensures Weights(t)[i] <= Weights(t)[j]
    {
      assert Rank(t[i], KEY) <= Rank(t[j], KEY);
    }
  }
}
