/** Length and distance symbols: section 3.2.5 of RFC 1951. The tables of
    compressor and decompressor, and the closed form they have. */
module LzSymbols {
  import opened HuffmanCode

  /** How often `x` is halved until it is below `limit`. */
  function Halvings(x: nat, limit: nat): (e: nat)
    requires limit > 0
    ensures Div2(x, e) < limit
    ensures e > 0 ==> 2 * Div2(x, e) + 1 >= limit
  {
    if x < limit then 0 else 1 + Halvings(x / 2, limit)
  }

  /** Extra bits and symbol of a length, less 3. */
  function LenExtra(l: nat): nat { if l == 255 then 0 else Halvings(l, 8) }

  function LenSym(l: nat): nat { if l == 255 then 285 else 257 + 4 * LenExtra(l) + Div2(l, LenExtra(l)) }

  /** Extra bits and symbol of a distance, less 1. */
  function DistExtra(d: nat): nat { Halvings(d, 4) }

  function DistSym(d: nat): nat { 2 * DistExtra(d) + Div2(d, DistExtra(d)) }

  /** The same by a distance's upper byte. */
  function LargeDistExtra(k: nat): nat { 8 + Halvings(k, 4) }

  function LargeDistSym(k: nat): nat { 2 * LargeDistExtra(k) + Div2(k, Halvings(k, 4)) }

  /** From 512 on the upper byte of a distance says it all. */
  lemma LargeIs(d: nat)
    requires d >= 512
    ensures DistExtra(d) == LargeDistExtra(d / 256) && DistSym(d) == LargeDistSym(d / 256)
  {
    EightBits(d);
    HalvedFirst(d, 8);
    DivAdds(d, 8, Halvings(d / 256, 4));
  }

  lemma {:induction false} HalvedFirst(d: nat, k: nat)
    requires Div2(d, k) >= 2
    ensures Halvings(d, 4) == k + Halvings(Div2(d, k), 4)
    decreases k
  {
    if k > 0 {
      HalvedFirst(d / 2, k - 1);
      AtLeastHalf(d / 2, k - 1);
    }
  }

  lemma {:induction false} AtLeastHalf(d: nat, k: nat)
    requires Div2(d, k) >= 2
    ensures d >= 2
  {
    if k > 0 { AtLeastHalf(d / 2, k - 1); }
  }

  // The compressor's tables, by where each run of equal entries ends.

  /** s_tdefl_len_sym */
  function STdeflLenSym(l: nat): nat
    requires l < 256
  {
    if l < 1 then 257 else if l < 2 then 258 else if l < 3 then 259 else if l < 4 then 260
    else if l < 5 then 261 else if l < 6 then 262 else if l < 7 then 263 else if l < 8 then 264
    else if l < 10 then 265 else if l < 12 then 266 else if l < 14 then 267 else if l < 16 then 268
    else if l < 20 then 269 else if l < 24 then 270 else if l < 28 then 271 else if l < 32 then 272
    else if l < 40 then 273 else if l < 48 then 274 else if l < 56 then 275 else if l < 64 then 276
    else if l < 80 then 277 else if l < 96 then 278 else if l < 112 then 279 else if l < 128 then 280
    else if l < 160 then 281 else if l < 192 then 282 else if l < 224 then 283 else if l < 255 then 284
    else 285
  }

  /** s_tdefl_len_extra */
  function STdeflLenExtra(l: nat): nat
    requires l < 256
  {
    if l < 8 then 0 else if l < 16 then 1 else if l < 32 then 2 else if l < 64 then 3
    else if l < 128 then 4 else if l < 255 then 5
    else 0
  }

  /** s_tdefl_small_dist_sym */
  function STdeflSmallDistSym(d: nat): nat
    requires d < 512
  {
    if d < 1 then 0 else if d < 2 then 1 else if d < 3 then 2 else if d < 4 then 3
    else if d < 6 then 4 else if d < 8 then 5 else if d < 12 then 6 else if d < 16 then 7
    else if d < 24 then 8 else if d < 32 then 9 else if d < 48 then 10 else if d < 64 then 11
    else if d < 96 then 12 else if d < 128 then 13 else if d < 192 then 14 else if d < 256 then 15
    else if d < 384 then 16
    else 17
  }

  /** s_tdefl_small_dist_extra */
  function STdeflSmallDistExtra(d: nat): nat
    requires d < 512
  {
    if d < 4 then 0 else if d < 8 then 1 else if d < 16 then 2 else if d < 32 then 3
    else if d < 64 then 4 else if d < 128 then 5 else if d < 256 then 6
    else 7
  }

  /** s_tdefl_large_dist_sym */
  function STdeflLargeDistSym(k: nat): nat
    requires k < 128
  {
    if k < 2 then 0 else if k < 3 then 18 else if k < 4 then 19 else if k < 6 then 20
    else if k < 8 then 21 else if k < 12 then 22 else if k < 16 then 23 else if k < 24 then 24
    else if k < 32 then 25 else if k < 48 then 26 else if k < 64 then 27 else if k < 96 then 28
    else 29
  }

  /** s_tdefl_large_dist_extra */
  function STdeflLargeDistExtra(k: nat): nat
    requires k < 128
  {
    if k < 2 then 0 else if k < 4 then 8 else if k < 8 then 9 else if k < 16 then 10
    else if k < 32 then 11 else if k < 64 then 12
    else 13
  }

  /** How often a number is halved, by the range it is in. */
  lemma {:induction false} HalvingsIn(x: nat, limit: nat, e: nat)
    requires limit >= 2 && limit % 2 == 0 && x < Shl(limit, e) && (e > 0 ==> Shl(limit / 2, e) <= x)
    ensures Halvings(x, limit) == e
  {
    if e > 0 {
      HalvingsHalf(x, limit / 2, e);
      HalvingsIn(x / 2, limit, e - 1);
    }
  }

  /** Behind `e` zero bits `q` is `q` at least, and it is even when doubled. */
  lemma {:induction false} HalvingsHalf(x: nat, q: nat, e: nat)
    requires Shl(q, e) <= x && e > 0
    ensures Shl(q, e - 1) <= x / 2 && 2 * q <= x
  {
    if e > 1 { HalvingsHalf(x / 2, q, e - 1); }
  }

  lemma Shifts(n: nat)
    ensures Div2(n, 0) == n && Div2(n, 1) == n / 2 && Div2(n, 2) == n / 4 && Div2(n, 3) == n / 8
    ensures Div2(n, 4) == n / 16 && Div2(n, 5) == n / 32 && Div2(n, 6) == n / 64 && Div2(n, 7) == n / 128
  {
    ThreeBits(n);
    ThreeBits(n / 8);
    DivAdds(n, 3, 1);
    DivAdds(n, 3, 2);
    DivAdds(n, 3, 3);
    DivAdds(n, 3, 4);
    DivAdds(n / 8, 3, 1);
    assert Div2(n / 8, 1) == n / 8 / 2 && Div2(n / 8, 2) == Div2(n / 16, 1) == n / 16 / 2;
    assert Div2(n / 64, 1) == n / 64 / 2;
    assert Div2(n, 2) == Div2(n / 2, 1) == n / 2 / 2;
  }

  lemma Twos(q: nat)
    ensures Shl(q, 0) == q && Shl(q, 1) == 2 * q && Shl(q, 2) == 4 * q && Shl(q, 3) == 8 * q
    ensures Shl(q, 4) == 16 * q && Shl(q, 5) == 32 * q && Shl(q, 6) == 64 * q && Shl(q, 7) == 128 * q
  {
    assert Shl(q, 2) == 2 * Shl(q, 1) && Shl(q, 4) == 2 * Shl(q, 3) && Shl(q, 6) == 2 * Shl(q, 5);
  }

  function Level(x: nat, limit: nat): (e: nat)
    requires limit > 0 && x < 128 * limit
    ensures e <= 7
  {
    if x < limit then 0 else if x < 2 * limit then 1 else if x < 4 * limit then 2 else if x < 8 * limit then 3
    else if x < 16 * limit then 4 else if x < 32 * limit then 5 else if x < 64 * limit then 6 else 7
  }

  lemma LevelIs(x: nat, limit: nat)
    requires (limit == 4 || limit == 8) && x < 128 * limit
    ensures Halvings(x, limit) == Level(x, limit)
  {
    hide Shl, Halvings;
    Twos(limit);
    Twos(limit / 2);
    HalvingsIn(x, limit, Level(x, limit));
  }

  /** The tables are the closed forms. */
  lemma LenTables(l: nat)
    requires l < 256
    ensures STdeflLenSym(l) == LenSym(l) && STdeflLenExtra(l) == LenExtra(l)
  {
    hide Halvings, Div2;
    LevelIs(l, 8);
    Shifts(l);
  }

  lemma SmallDistTables(d: nat)
    requires d < 512
    ensures STdeflSmallDistSym(d) == DistSym(d) && STdeflSmallDistExtra(d) == DistExtra(d)
  {
    hide Halvings, Div2;
    LevelIs(d, 4);
    Shifts(d);
  }

  lemma LargeDistTables(d: nat)
    requires 512 <= d < 32768
    ensures STdeflLargeDistSym(d / 256) == DistSym(d) && STdeflLargeDistExtra(d / 256) == DistExtra(d)
  {
    hide Halvings, Div2;
    LargeIs(d);
    LevelIs(d / 256, 4);
    Shifts(d / 256);
  }

  const S_LENGTH_BASE: seq<nat> :=
    [3, 4, 5, 6, 7, 8, 9, 10, 11, 13, 15, 17, 19, 23, 27, 31, 35, 43, 51, 59, 67, 83, 99, 115, 131, 163, 195, 227, 258, 0, 0]
  const S_LENGTH_EXTRA: seq<nat> :=
    [0, 0, 0, 0, 0, 0, 0, 0, 1, 1, 1, 1, 2, 2, 2, 2, 3, 3, 3, 3, 4, 4, 4, 4, 5, 5, 5, 5, 0, 0, 0]
  const S_DIST_BASE: seq<nat> :=
    [1, 2, 3, 4, 5, 7, 9, 13, 17, 25, 33, 49, 65, 97, 129, 193, 257, 385, 513, 769, 1025, 1537, 2049, 3073, 4097, 6145, 8193, 12289,
     16385, 24577, 0, 0]
  const S_DIST_EXTRA: seq<nat> :=
    [0, 0, 0, 0, 1, 1, 2, 2, 3, 3, 4, 4, 5, 5, 6, 6, 7, 7, 8, 8, 9, 9, 10, 10, 11, 11, 12, 12, 13, 13, 0, 0]

  function LengthBase(i: nat): nat
    requires i < 31
  {
    S_LENGTH_BASE[i]
  }

  function LengthExtra(i: nat): nat
    requires i < 31
  {
    S_LENGTH_EXTRA[i]
  }

  function DistanceBase(i: nat): nat
    requires i < 32
  {
    S_DIST_BASE[i]
  }

  function DistanceExtra(i: nat): nat
    requires i < 32
  {
    S_DIST_EXTRA[i]
  }

  lemma {:induction false} Halved(x: nat, e: nat)
    ensures x == Shl(Div2(x, e), e) + x % Pow2(e)
  {
    if e > 0 {
      Halved(x / 2, e - 1);
      ModStep(x / 2, x % 2, Pow2(e - 1));
    }
  }

  /** The symbol's base and the extra bits give back the length. */
  lemma LengthBack(l: nat)
    requires l <= 255
    ensures 257 <= LenSym(l) <= 285 && LengthExtra(LenSym(l) - 257) == LenExtra(l)
    ensures LengthBase(LenSym(l) - 257) + l % Pow2(LenExtra(l)) == l + 3
  {
    hide LengthBase, LengthExtra, Pow2, Shl;
    var e := LenExtra(l);
    var q := Div2(l, e);
    Halved(l, e);
    if l == 255 {
      LengthLast();
    } else {
      LengthEntry(e, q, l);
    }
  }

  lemma LengthEntry(e: nat, q: nat, l: nat)
    requires l < 255 && e == Halvings(l, 8) && q == Div2(l, e) && l == Shl(q, e) + l % Pow2(e)
    ensures 4 * e + q < 28 && LengthExtra(4 * e + q) == e && LengthBase(4 * e + q) == 3 + Shl(q, e)
  {
    EightBits(l);
    assert Pow2(2) == 4;
    if e > 0 { FewHalvings(q, e, 2, 8); }
    LengthEntries(q, e);
  }

  /** Halving more often needs a larger number. */
  lemma {:induction false} FewHalvings(q: nat, e: nat, k: nat, n: nat)
    requires Pow2(k) <= q && Shl(q, e) < Pow2(n)
    ensures e + k < n
    decreases e
  {
    if e > 0 {
      if n == 0 { ShlSome(q, e); }
      FewHalvings(q, e - 1, k, n - 1);
    } else if n <= k {
      PowGrows(n, k);
    }
  }

  lemma {:induction false} ShlSome(q: nat, e: nat)
    requires q > 0
    ensures Shl(q, e) > 0
  {
    if e > 0 { ShlSome(q, e - 1); }
  }

  lemma {:induction false} PowGrows(j: nat, k: nat)
    requires j <= k
    ensures Pow2(j) <= Pow2(k)
    decreases k
  {
    if j < k { PowGrows(j, k - 1); }
  }

  lemma FifteenBits()
    ensures Pow2(15) == 32768
  {
    EightBits(0);
    assert Pow2(10) == 4 * Pow2(8) && Pow2(12) == 4 * Pow2(10) && Pow2(14) == 4 * Pow2(12);
  }

  lemma {:induction false} LengthEntries(q: nat, e: nat)
    requires q < 8 && e <= 5 && (e > 0 ==> q >= 4)
    ensures LengthExtra(4 * e + q) == e && LengthBase(4 * e + q) == 3 + Shl(q, e)
  {
    hide LengthBase, LengthExtra;
    if e > 0 {
      LengthEntries(q, e - 1);
      LengthDoubles(4 * e + q);
    } else {
      LengthFirst(q);
    }
  }

  lemma LengthLast()
    ensures LengthExtra(28) == 0 && LengthBase(28) == 258 && Pow2(0) == 1
  {
  }

  lemma LengthFirst(q: nat)
    requires q < 8
    ensures LengthExtra(q) == 0 && LengthBase(q) == 3 + q
  {
  }

  lemma LengthDoubles(i: nat)
    requires 8 <= i < 28
    ensures LengthExtra(i) == LengthExtra(i - 4) + 1 && LengthBase(i) - 3 == 2 * (LengthBase(i - 4) - 3)
  {
  }

  lemma DistanceBack(d: nat)
    requires d < 32768
    ensures DistSym(d) < 30 && DistanceExtra(DistSym(d)) == DistExtra(d)
    ensures DistanceBase(DistSym(d)) + d % Pow2(DistExtra(d)) == d + 1
  {
    hide DistanceBase, DistanceExtra, Pow2, Shl;
    var e := DistExtra(d);
    Halved(d, e);
    DistEntry(e, Div2(d, e), d);
  }

  lemma DistEntry(e: nat, q: nat, d: nat)
    requires d < 32768 && e == Halvings(d, 4) && q == Div2(d, e) && d == Shl(q, e) + d % Pow2(e)
    ensures 2 * e + q < 30 && DistanceExtra(2 * e + q) == e && DistanceBase(2 * e + q) == 1 + Shl(q, e)
  {
    FifteenBits();
    assert Pow2(1) == 2;
    if e > 0 { FewHalvings(q, e, 1, 15); }
    DistEntries(q, e);
  }

  lemma {:induction false} DistEntries(q: nat, e: nat)
    requires q < 4 && e <= 13 && (e > 0 ==> q >= 2)
    ensures DistanceExtra(2 * e + q) == e && DistanceBase(2 * e + q) == 1 + Shl(q, e)
  {
    hide DistanceBase, DistanceExtra;
    if e > 0 {
      DistEntries(q, e - 1);
      DistDoubles(2 * e + q);
    } else {
      DistFirst(q);
    }
  }

  lemma DistFirst(q: nat)
    requires q < 4
    ensures DistanceExtra(q) == 0 && DistanceBase(q) == 1 + q
  {
  }

  lemma DistDoubles(i: nat)
    requires 4 <= i < 30
    ensures DistanceExtra(i) == DistanceExtra(i - 2) + 1 && DistanceBase(i) - 1 == 2 * (DistanceBase(i - 2) - 1)
  {
  }
}
