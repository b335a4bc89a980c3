/** Canonical Huffman codes: section 3.2.2 of RFC 1951. Words are in the order
    their bits are sent, the most significant bit of the code first. */
module HuffmanCode {
  const MAX_BITS: nat := 15

  type Bits = seq<bool>

  /** Code lengths, 0 for a symbol that does not occur. */
  type Lengths = s: seq<nat> | forall i :: 0 <= i < |s| ==> s[i] <= MAX_BITS

  function Pow2(k: nat): (p: nat)
    ensures p > 0
  {
    if k == 0 then 1 else 2 * Pow2(k - 1)
  }

  function Bit(b: bool): nat { if b then 1 else 0 }

  /** The number a word is read as, most significant bit first. */
  function Num(w: Bits): (n: nat)
    ensures n < Pow2(|w|)
  {
    if w == [] then 0 else 2 * Num(w[..|w| - 1]) + Bit(w[|w| - 1])
  }

  function Word(n: nat, k: nat): (w: Bits)
    ensures |w| == k
  {
    if k == 0 then [] else Word(n / 2, k - 1) + [n % 2 == 1]
  }

  lemma {:induction false} NumWord(n: nat, k: nat)
    requires n < Pow2(k)
    ensures Num(Word(n, k)) == n
  {
    if k > 0 {
      NumWord(n / 2, k - 1);
      assert Word(n, k)[..k - 1] == Word(n / 2, k - 1);
    }
  }

  lemma {:induction false} WordNum(w: Bits)
    ensures Word(Num(w), |w|) == w
  {
    if w != [] {
      WordNum(w[..|w| - 1]);
    }
  }

  /** Equal numbers of equal length are equal words. */
  lemma NumInjective(v: Bits, w: Bits)
    requires |v| == |w| && Num(v) == Num(w)
    ensures v == w
  {
    WordNum(v);
    WordNum(w);
  }

  /** `a` followed by `k` zero bits. */
  function Shl(a: nat, k: nat): nat {
    if k == 0 then a else 2 * Shl(a, k - 1)
  }

  lemma {:induction false} ShlBelow(a: nat, b: nat, k: nat)
    requires Shl(a, k) < Shl(b, k)
    ensures a < b
  {
    if k > 0 { ShlBelow(a, b, k - 1); }
  }

  lemma {:induction false} NumPrefix(w: Bits, l: nat)
    requires l <= |w|
    ensures Shl(Num(w[..l]), |w| - l) <= Num(w) < Shl(Num(w[..l]) + 1, |w| - l)
    decreases |w|
  {
    if l == |w| {
      assert w[..l] == w;
    } else {
      var v := w[..|w| - 1];
      NumPrefix(v, l);
      assert v[..l] == w[..l];
    }
  }

  lemma {:induction false} ShlAdds(a: nat, b: nat, k: nat)
    ensures Shl(a + b, k) == Shl(a, k) + Shl(b, k)
    ensures Shl(2 * a, k) == Shl(a, k + 1)
  {
    if k > 0 { ShlAdds(a, b, k - 1); }
  }

  /** How many of the first `n` symbols have length `l`. */
  function Count(lens: Lengths, l: nat, n: nat): (c: nat)
    requires n <= |lens|
    ensures c <= n
  {
    if n == 0 then 0 else Count(lens, l, n - 1) + if lens[n - 1] == l then 1 else 0
  }

  function Total(lens: Lengths, l: nat): nat { Count(lens, l, |lens|) }

  /** The first code of length `l`. */
  function First(lens: Lengths, l: nat): nat {
    if l <= 1 then 0 else 2 * (First(lens, l - 1) + Total(lens, l - 1))
  }

  predicate Used(lens: Lengths, s: nat) { s < |lens| && lens[s] > 0 }

  function Code(lens: Lengths, s: nat): nat
    requires Used(lens, s)
  {
    First(lens, lens[s]) + Count(lens, lens[s], s)
  }

  function CodeWord(lens: Lengths, s: nat): (w: Bits)
    requires Used(lens, s)
    ensures |w| == lens[s]
  {
    Word(Code(lens, s), lens[s])
  }

  /** The Kraft sum is one, in units of 2^-16. */
  predicate Complete(lens: Lengths) { First(lens, MAX_BITS + 1) == Pow2(MAX_BITS + 1) }

  /** No length has more codes than it has room for. */
  ghost predicate Fits(lens: Lengths) {
    forall l :: 1 <= l <= MAX_BITS ==> FitsAt(lens, l)
  }

  predicate FitsAt(lens: Lengths, l: nat) { First(lens, l) + Total(lens, l) <= Pow2(l) }

  lemma {:induction false} CompleteAt(lens: Lengths, l: nat)
    requires Complete(lens) && 1 <= l <= MAX_BITS
    ensures FitsAt(lens, l)
    decreases MAX_BITS - l
  {
    if l < MAX_BITS { CompleteAt(lens, l + 1); }
    assert First(lens, l + 1) == 2 * (First(lens, l) + Total(lens, l));
    assert Pow2(l + 1) == 2 * Pow2(l);
  }

  lemma CompleteFits(lens: Lengths)
    requires Complete(lens)
    ensures Fits(lens)
  {
    forall l | 1 <= l <= MAX_BITS
      ensures FitsAt(lens, l)
    {
      CompleteAt(lens, l);
    }
  }

  lemma {:induction false} CountMore(lens: Lengths, l: nat, m: nat, n: nat)
    requires m <= n <= |lens|
    ensures Count(lens, l, m) <= Count(lens, l, n)
    ensures m < n && lens[m] == l ==> Count(lens, l, m) < Count(lens, l, n)
    decreases n
  {
    if m < n {
      CountMore(lens, l, m, n - 1);
    }
  }

  lemma CodeFits(lens: Lengths, s: nat)
    requires Fits(lens) && Used(lens, s)
    ensures Code(lens, s) < First(lens, lens[s]) + Total(lens, lens[s]) <= Pow2(lens[s])
    ensures Num(CodeWord(lens, s)) == Code(lens, s)
  {
    assert FitsAt(lens, lens[s]);
    CountMore(lens, lens[s], s, |lens|);
    NumWord(Code(lens, s), lens[s]);
  }

  /** Longer codes start where the shorter ones end. */
  lemma {:induction false} FirstGrows(lens: Lengths, l: nat, k: nat)
    requires l >= 1 && k >= 1
    ensures First(lens, l + k) >= Shl(First(lens, l) + Total(lens, l), k)
    decreases k
  {
    if k > 1 {
      FirstGrows(lens, l, k - 1);
    } else {
      assert Shl(First(lens, l) + Total(lens, l), 0) == First(lens, l) + Total(lens, l);
    }
  }

  /** The first bits of a longer code are above every code of their length. */
  lemma PrefixAbove(lens: Lengths, t: nat, l: nat)
    requires Fits(lens) && Used(lens, t) && 1 <= l < lens[t]
    ensures First(lens, l) + Total(lens, l) <= Num(CodeWord(lens, t)[..l]) < Pow2(l)
  {
    hide Fits, First, Count, Num, Shl, Pow2;
    var w, k := CodeWord(lens, t), lens[t] - l;
    CodeFits(lens, t);
    FirstGrows(lens, l, k);
    NumPrefix(w, l);
    ShlBelow(First(lens, l) + Total(lens, l), Num(w[..l]) + 1, k);
    assert |w[..l]| == l;
  }

  /** No code word is the beginning of another. */
  lemma PrefixFree(lens: Lengths, s: nat, t: nat)
    requires Fits(lens) && Used(lens, s) && Used(lens, t) && CodeWord(lens, s) <= CodeWord(lens, t)
    ensures s == t
  {
    hide Fits, First, Count, Num, Pow2;
    CodeFits(lens, s);
    CodeFits(lens, t);
    var l := lens[s];
    assert CodeWord(lens, t)[..l] == CodeWord(lens, s);
    if l < lens[t] {
      PrefixAbove(lens, t, l);
    } else {
      assert CodeWord(lens, t)[..l] == CodeWord(lens, t);
      if s < t {
        CountMore(lens, l, s, t);
      } else if t < s {
        CountMore(lens, l, t, s);
      }
    }
  }

  /** Symbol number `k` of those with length `l`. */
  lemma {:induction false} NthSymbol(lens: Lengths, l: nat, k: nat, n: nat) returns (s: nat)
    requires n <= |lens| && k < Count(lens, l, n)
    ensures s < n && lens[s] == l && Count(lens, l, s) == k
  {
    if lens[n - 1] == l && Count(lens, l, n - 1) == k {
      s := n - 1;
    } else {
      s := NthSymbol(lens, l, k, n - 1);
    }
  }

  /** Decoding bit by bit: a word of `l` bits is a code if its number is below
      the end of the codes of that length. */
  function PlainLength(lens: Lengths, bits: Bits, l: nat): (r: nat)
    requires 1 <= l && |bits| >= MAX_BITS
    ensures r <= MAX_BITS
    decreases MAX_BITS + 1 - l
  {
    if l > MAX_BITS then 0
    else if Num(bits[..l]) < First(lens, l) + Total(lens, l) then l
    else PlainLength(lens, bits, l + 1)
  }

  lemma LastRoom(lens: Lengths)
    requires Complete(lens)
    ensures First(lens, MAX_BITS) + Total(lens, MAX_BITS) == Pow2(MAX_BITS)
  {
    assert First(lens, MAX_BITS + 1) == 2 * (First(lens, MAX_BITS) + Total(lens, MAX_BITS));
    assert Pow2(MAX_BITS + 1) == 2 * Pow2(MAX_BITS);
  }

  lemma {:induction false} PlainDecodes(lens: Lengths, bits: Bits, l: nat) returns (s: nat)
    requires Complete(lens) && 1 <= l <= MAX_BITS && |bits| >= MAX_BITS && First(lens, l) <= Num(bits[..l])
    ensures Used(lens, s) && CodeWord(lens, s) <= bits && lens[s] == PlainLength(lens, bits, l)
    decreases MAX_BITS - l
  {
    hide Fits, Complete, Word, Pow2, CodeWord;
    CompleteFits(lens);
    LastRoom(lens);
    var w := bits[..l];
    if Num(w) < First(lens, l) + Total(lens, l) {
      s := NthSymbol(lens, l, Num(w) - First(lens, l), |lens|);
      CodeFits(lens, s);
      NumInjective(CodeWord(lens, s), w);
    } else {
      if l < MAX_BITS {
        assert bits[..l + 1][..l] == w;
      }
      s := PlainDecodes(lens, bits, l + 1);
    }
  }

  /** A complete code reads every bit string in exactly one way. */
  lemma ExactlyOne(lens: Lengths, bits: Bits) returns (s: nat)
    requires Complete(lens) && |bits| >= MAX_BITS
    ensures Used(lens, s) && CodeWord(lens, s) <= bits
    ensures forall t :: Used(lens, t) && CodeWord(lens, t) <= bits ==> t == s
  {
    CompleteFits(lens);
    s := PlainDecodes(lens, bits, 1);
    forall t | Used(lens, t) && CodeWord(lens, t) <= bits
      ensures t == s
    {
      SamePrefix(lens, s, t, bits);
    }
  }

  lemma SamePrefix(lens: Lengths, s: nat, t: nat, bits: Bits)
    requires Fits(lens) && Used(lens, s) && Used(lens, t)
    requires CodeWord(lens, s) <= bits && CodeWord(lens, t) <= bits
    ensures s == t
  {
    if lens[s] <= lens[t] {
      assert CodeWord(lens, s) <= CodeWord(lens, t);
      PrefixFree(lens, s, t);
    } else {
      assert CodeWord(lens, t) <= CodeWord(lens, s);
      PrefixFree(lens, t, s);
    }
  }

  /** The symbols with a length between 1 and `l`. */
  function UsedUpTo(lens: Lengths, l: nat): nat {
    if l == 0 then 0 else UsedUpTo(lens, l - 1) + Total(lens, l)
  }

  lemma {:induction false} FewAt(lens: Lengths, l: nat)
    requires l >= 1 && UsedUpTo(lens, l) <= 1
    ensures FitsAt(lens, l)
    ensures UsedUpTo(lens, l) == 0 ==> First(lens, l) + Total(lens, l) == 0
  {
    if l > 1 {
      FewAt(lens, l - 1);
      assert Pow2(l) == 2 * Pow2(l - 1);
    }
  }

  lemma {:induction false} UsedGrows(lens: Lengths, l: nat, m: nat)
    requires l <= m
    ensures UsedUpTo(lens, l) <= UsedUpTo(lens, m)
    decreases m
  {
    if l < m { UsedGrows(lens, l, m - 1); }
  }

  /** One code alone fits, whatever its length. */
  lemma FewFits(lens: Lengths)
    requires UsedUpTo(lens, MAX_BITS) <= 1
    ensures Fits(lens)
  {
    forall l | 1 <= l <= MAX_BITS
      ensures FitsAt(lens, l)
    {
      UsedGrows(lens, l, MAX_BITS);
      FewAt(lens, l);
    }
  }

  /** The number a word makes in the bit buffer, where the first bit is lowest. */
  function Val(w: Bits): (n: nat)
    ensures n < Pow2(|w|)
  {
    if w == [] then 0 else Bit(w[0]) + 2 * Val(w[1..])
  }

  /** The lowest `k` bits of the bit buffer, the lowest first. */
  function Low(n: nat, k: nat): (w: Bits)
    ensures |w| == k
  {
    if k == 0 then [] else [n % 2 == 1] + Low(n / 2, k - 1)
  }

  lemma {:induction false} ValLow(n: nat, k: nat)
    requires n < Pow2(k)
    ensures Val(Low(n, k)) == n
  {
    if k > 0 {
      ValLow(n / 2, k - 1);
      assert Low(n, k)[1..] == Low(n / 2, k - 1);
    }
  }

  lemma {:induction false} LowVal(w: Bits)
    ensures Low(Val(w), |w|) == w
  {
    if w != [] {
      LowVal(w[1..]);
      assert Val(w) / 2 == Val(w[1..]);
    }
  }

  lemma {:induction false} LowPrefix(n: nat, k: nat, l: nat)
    requires l <= k
    ensures Low(n, k)[..l] == Low(n, l)
    decreases k
  {
    if l > 0 {
      LowPrefix(n / 2, k - 1, l - 1);
      assert Low(n, k)[1..] == Low(n / 2, k - 1);
      assert Low(n, k)[..l] == [n % 2 == 1] + Low(n, k)[1..][..l - 1];
    }
  }

  /** `n % Pow2(k)` keeps the lowest bits, `n / Pow2(k)` the others. */
  function Div2(n: nat, k: nat): nat { if k == 0 then n else Div2(n / 2, k - 1) }

  lemma {:induction false} ValDrop(w: Bits, k: nat)
    requires k <= |w|
    ensures Div2(Val(w), k) == Val(w[k..])
    decreases k
  {
    if k > 0 {
      assert Val(w) / 2 == Val(w[1..]);
      ValDrop(w[1..], k - 1);
      assert w[1..][k - 1..] == w[k..];
    } else {
      assert w[0..] == w;
    }
  }

  lemma {:induction false} ValTake(w: Bits, k: nat)
    requires k <= |w|
    ensures Val(w) % Pow2(k) == Val(w[..k])
    decreases k
  {
    if k > 0 {
      ValTake(w[1..], k - 1);
      assert w[..k][1..] == w[1..][..k - 1];
      ModStep(Val(w[1..]), Bit(w[0]), Pow2(k - 1));
    }
  }

  lemma ThreeBits(n: nat)
    ensures Div2(n, 3) == n / 8
  {
    assert Div2(n / 2 / 2, 1) == Div2(n / 2 / 2 / 2, 0) == n / 8;
    assert Div2(n / 2, 2) == Div2(n / 2 / 2, 1);
  }

  lemma {:induction false} DivAdds(n: nat, a: nat, b: nat)
    ensures Div2(n, a + b) == Div2(Div2(n, a), b)
    decreases a
  {
    if a > 0 { DivAdds(n / 2, a - 1, b); }
  }

  lemma EightBits(n: nat)
    ensures Div2(n, 8) == n / 256 && Pow2(8) == 256
  {
    ThreeBits(n);
    ThreeBits(n / 8);
    DivAdds(n, 3, 5);
    DivAdds(n / 8, 3, 2);
    assert Div2(n / 64, 2) == Div2(n / 64 / 2, 1) == n / 64 / 2 / 2;
  }

  lemma {:induction false} LowAt(n: nat, k: nat, i: nat)
    requires i < k
    ensures Low(n, k)[i] == (Div2(n, i) % 2 == 1)
  {
    if i > 0 { LowAt(n / 2, k - 1, i - 1); }
  }

  lemma {:induction false} ValLowMod(n: nat, k: nat)
    ensures Val(Low(n, k)) == n % Pow2(k)
  {
    if k > 0 {
      ValLowMod(n / 2, k - 1);
      assert Low(n, k)[1..] == Low(n / 2, k - 1);
      ModStep(n / 2, n % 2, Pow2(k - 1));
    }
  }

  lemma LowRest(bits: nat, all: Bits, l: nat, rest: Bits)
    requires all == Low(bits, |all|) && l <= |all| && all[l..] == rest
    ensures Low(Div2(bits, l), |rest|) == rest
  {
    LowDrop(bits, |all|, l);
  }

  lemma {:induction false} LowDrop(n: nat, k: nat, l: nat)
    requires l <= k
    ensures Low(n, k)[l..] == Low(Div2(n, l), k - l)
    decreases l
  {
    if l > 0 {
      LowDrop(n / 2, k - 1, l - 1);
      assert Low(n, k)[1..] == Low(n / 2, k - 1);
      assert Low(n, k)[l..] == Low(n, k)[1..][l - 1..];
    } else {
      assert Low(n, k)[0..] == Low(n, k);
    }
  }

  lemma ModStep(n: nat, b: nat, p: nat)
    requires b <= 1 && p > 0
    ensures (b + 2 * n) % (2 * p) == b + 2 * (n % p)
  {
    var q := n / p;
    assert b + 2 * n == 2 * p * q + (b + 2 * (n % p));
    ModUnique(b + 2 * n, 2 * p, q, b + 2 * (n % p));
  }

  lemma ModUnique(n: nat, d: nat, q: nat, r: nat)
    requires d > 0 && n == d * q + r && r < d
    ensures n % d == r && n / d == q
  {
    var k: int := q - n / d;
    assert n == d * (n / d) + n % d;
    Distribute(d, q, n / d);
    if k >= 1 { AtLeast(d, k); }
    if k <= -1 { AtLeast(d, -k); Distribute(d, n / d, q); }
  }

  lemma Distribute(d: int, a: int, b: int)
    ensures d * a - d * b == d * (a - b)
  {
  }

  lemma AtLeast(d: nat, k: int)
    requires k >= 1
    ensures d * k >= d
  {
  }

  /** The Kraft sum of the lengths up to `l`, in units of 2^-16. */
  function Kraft(lens: Lengths, l: nat): nat
    requires l <= MAX_BITS
  {
    if l == 0 then 0 else Kraft(lens, l - 1) + Shl(Total(lens, l), MAX_BITS + 1 - l)
  }

  lemma {:induction false} KraftIs(lens: Lengths, l: nat)
    requires 1 <= l <= MAX_BITS
    ensures Kraft(lens, l) == Shl(First(lens, l + 1), MAX_BITS - l)
  {
    var k := MAX_BITS - l;
    if l > 1 {
      KraftIs(lens, l - 1);
    } else {
      ShlZero(k);
      assert Kraft(lens, 0) == 0 && First(lens, 1) == 0;
    }
    ShlAdds(First(lens, l), Total(lens, l), k + 1);
    ShlAdds(First(lens, l) + Total(lens, l), 0, k);
  }

  lemma {:induction false} ShlZero(k: nat)
    ensures Shl(0, k) == 0
  {
    if k > 0 { ShlZero(k - 1); }
  }

  /** The decoder's check passes exactly for codes that fill the code space. */
  lemma CompleteIsKraft(lens: Lengths)
    ensures Complete(lens) <==> Kraft(lens, MAX_BITS) == Pow2(MAX_BITS + 1)
  {
    KraftIs(lens, MAX_BITS);
    assert Shl(First(lens, MAX_BITS + 1), 0) == First(lens, MAX_BITS + 1);
  }

  lemma {:induction false} CountTrimmed(lens: Lengths, n: nat, l: nat, m: nat)
    requires n <= |lens| && l >= 1 && m <= |lens| && forall i :: n <= i < |lens| ==> lens[i] == 0
    ensures Count(lens, l, m) == Count(lens[..n], l, if m <= n then m else n)
  {
    if m > 0 { CountTrimmed(lens, n, l, m - 1); }
  }

  lemma {:induction false} FirstTrimmed(lens: Lengths, n: nat, l: nat)
    requires n <= |lens| && forall i :: n <= i < |lens| ==> lens[i] == 0
    ensures First(lens, l) == First(lens[..n], l)
  {
    if l > 1 {
      FirstTrimmed(lens, n, l - 1);
      CountTrimmed(lens, n, l - 1, |lens|);
    }
  }

  /** Lengths of zero at the end need not be sent. */
  lemma Trimmed(lens: Lengths, n: nat)
    requires n <= |lens| && forall i :: n <= i < |lens| ==> lens[i] == 0
    ensures Complete(lens) <==> Complete(lens[..n])
    ensures forall s: nat :: Used(lens, s) <==> Used(lens[..n], s)
    ensures forall s: nat :: Used(lens, s) ==> CodeWord(lens, s) == CodeWord(lens[..n], s)
  {
    FirstTrimmed(lens, n, MAX_BITS + 1);
    forall s: nat | Used(lens, s)
      ensures CodeWord(lens, s) == CodeWord(lens[..n], s)
    {
      FirstTrimmed(lens, n, lens[s]);
      CountTrimmed(lens, n, lens[s], s);
    }
  }
}
