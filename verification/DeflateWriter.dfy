/** Sending blocks: tdefl_compress_block and the rest of tdefl_flush_block. */
module DeflateWriter {
  import opened HuffmanCode
  import opened HuffmanTree
  import HuffmanTables
  import opened HuffmanOptimize
  import opened SymbolCounts
  import opened LzSymbols
  import opened BitStream
  import CodeLengths
  import LzTokens
  import opened LzWindow
  import opened DeflateFormat
  import opened DeflateLayout

  /** m_huff_code_sizes and m_huff_codes */
  datatype Table = Table(sizes: Lengths, codes: seq<nat>)

  ghost predicate HasCodes(t: Table) {
    |t.codes| == |t.sizes| && forall s: nat :: Used(t.sizes, s) ==> t.codes[s] == Val(CodeWord(t.sizes, s))
  }

  method MakeTable(sizes: Lengths) returns (t: Table)
    ensures HasCodes(t) && t.sizes == sizes
  {
    var codes := HuffmanTables.AssignCodes(sizes);
    t := Table(sizes, codes);
  }

  method PutSymbol(w: BitWriter, t: Table, s: nat)
    requires w.Valid() && HasCodes(t) && Used(t.sizes, s)
    modifies w
    ensures w.Valid() && w.Contents() == old(w.Contents()) + CodeWord(t.sizes, s)
  {
    hide Val, CodeWord, Low, Pow2;
    LowVal(CodeWord(t.sizes, s));
    w.Put(t.codes[s], t.sizes[s]);
  }

  /** The lowest `n` bits of a number. */
  method PutLow(w: BitWriter, v: nat, n: nat)
    requires w.Valid()
    modifies w
    ensures w.Valid() && w.Contents() == old(w.Contents()) + Low(v, n)
  {
    hide Val, Low, Pow2;
    ValLowMod(v, n);
    LowVal(Low(v, n));
    w.Put(v % Pow2(n), n);
  }

  /** One literal or match, as tdefl_compress_lz_codes sends it. */
  method PutCode(w: BitWriter, lit: Table, dist: Table, t: LzCode)
    requires w.Valid() && HasCodes(lit) && HasCodes(dist) && Sendable(lit.sizes, dist.sizes, t)
    modifies w
    ensures w.Valid() && w.Contents() == old(w.Contents()) + LzBits(lit.sizes, dist.sizes, t)
  {
    hide Low, CodeWord, HasCodes, Used, STdeflLenSym, STdeflLenExtra, STdeflSmallDistSym, STdeflSmallDistExtra,
      STdeflLargeDistSym, STdeflLargeDistExtra;
    ghost var was := w.Contents();
    if t.Literal? {
      PutSymbol(w, lit, t.b as nat);
      return;
    }
    var matchLen, matchDist := t.len - 3, t.dist - 1;
    LenTables(matchLen);
    PutSymbol(w, lit, STdeflLenSym(matchLen));
    PutLow(w, matchLen, STdeflLenExtra(matchLen));
    var sym, extra;
    if matchDist < 512 {
      SmallDistTables(matchDist);
      sym, extra := STdeflSmallDistSym(matchDist), STdeflSmallDistExtra(matchDist);
    } else {
      LargeDistTables(matchDist);
      sym, extra := STdeflLargeDistSym(matchDist / 256), STdeflLargeDistExtra(matchDist / 256);
    }
    PutSymbol(w, dist, sym);
    PutLow(w, matchDist, extra);
    FourParts(was, CodeWord(lit.sizes, LenSym(matchLen)), Low(matchLen, LenExtra(matchLen)),
              CodeWord(dist.sizes, DistSym(matchDist)), Low(matchDist, DistExtra(matchDist)));
  }

  lemma FourParts(z: Bits, a: Bits, b: Bits, c: Bits, d: Bits)
    ensures z + a + b + c + d == z + (a + (b + (c + d)))
  {
  }

  /** tdefl_compress_lz_codes */
  method CompressLzCodes(w: BitWriter, lit: Table, dist: Table, codes: seq<LzCode>)
    requires w.Valid() && HasCodes(lit) && HasCodes(dist) && AllSendable(lit.sizes, dist.sizes, codes)
    modifies w
    ensures w.Valid() && w.Contents() == old(w.Contents()) + BodyBits(lit.sizes, dist.sizes, codes)
  {
    hide LzBits, CodeWord, HasCodes, Sendable;
    ghost var was, whole := w.Contents(), BodyBits(lit.sizes, dist.sizes, codes);
    var i := 0;
    assert codes[0..] == codes;
    while i < |codes|
      invariant 0 <= i <= |codes| && w.Valid() && AllSendable(lit.sizes, dist.sizes, codes[i..])
      invariant w.Contents() + BodyBits(lit.sizes, dist.sizes, codes[i..]) == was + whole
    {
      ghost var rest := codes[i..];
      assert rest[1..] == codes[i + 1..];
      PutCode(w, lit, dist, codes[i]);
      i := i + 1;
    }
    PutSymbol(w, lit, END);
  }

  /** How often symbols occur: the counting of tdefl_record_literal and tdefl_record_match. */
  ghost predicate CountedFor(ts: seq<LzCode>, lit: seq<nat>, dist: seq<nat>) {
    && |lit| == 288 && |dist| == 32 && lit[286] == 0 && lit[287] == 0 && dist[30] == 0 && dist[31] == 0
    && (forall i :: 0 <= i < |ts| ==> SymbolsCounted(ts[i], lit, dist))
  }

  predicate SymbolsCounted(t: LzCode, lit: seq<nat>, dist: seq<nat>) {
    match t
    case Literal(b) => (b as nat) < |lit| && lit[b as nat] > 0
    case Match(len, d) => LenSym(len - 3) < |lit| && lit[LenSym(len - 3)] > 0 && DistSym(d - 1) < |dist| && dist[DistSym(d - 1)] > 0
  }

  lemma {:induction false} SumAdds(counts: seq<nat>, s: nat, n: nat)
    requires s < |counts| && n <= |counts|
    ensures SumCounts(counts[s := counts[s] + 1], n) == SumCounts(counts, n) + if s < n then 1 else 0
  {
    if n > 0 { SumAdds(counts, s, n - 1); }
  }

  lemma {:induction false} SumNone(counts: seq<nat>, n: nat)
    requires n <= |counts| && forall i :: 0 <= i < n ==> counts[i] == 0
    ensures SumCounts(counts, n) == 0
  {
    if n > 0 { SumNone(counts, n - 1); }
  }

  lemma CountsGrow(ts: seq<LzCode>, lit: seq<nat>, dist: seq<nat>, lit': seq<nat>, dist': seq<nat>)
    requires CountedFor(ts, lit, dist) && |lit'| == 288 && |dist'| == 32
    requires lit'[286] == 0 && lit'[287] == 0 && dist'[30] == 0 && dist'[31] == 0
    requires (forall s :: 0 <= s < 288 ==> lit'[s] >= lit[s]) && forall s :: 0 <= s < 32 ==> dist'[s] >= dist[s]
    ensures CountedFor(ts, lit', dist')
  {
    forall i | 0 <= i < |ts|
      ensures SymbolsCounted(ts[i], lit', dist')
    {
      assert SymbolsCounted(ts[i], lit, dist);
    }
  }

  lemma CountedMore(ts: seq<LzCode>, t: LzCode, lit: seq<nat>, dist: seq<nat>)
    requires CountedFor(ts, lit, dist) && SymbolsCounted(t, lit, dist)
    ensures CountedFor(ts + [t], lit, dist)
  {
  }

  /** The table that tdefl_record_match counts a distance by. */
  function CountedDistSym(d: nat): (s: nat)
    requires d < 32768
    ensures s == DistSym(d)
  {
    if d < 512 then
      SmallDistTables(d);
      STdeflSmallDistSym(d)
    else
      LargeDistTables(d);
      STdeflLargeDistSym(d / 256)
  }

  method CountSymbols(codes: seq<LzCode>) returns (lit: seq<nat>, dist: seq<nat>)
    ensures CountedFor(codes, lit, dist) && lit[END] > 0
    ensures SumCounts(lit, 288) == |codes| + 1 && SumCounts(dist, 32) <= |codes|
  {
    hide LenSym, DistSym, SumCounts, STdeflLenSym, CountedDistSym;
    lit, dist := seq(288, _ => 0), seq(32, _ => 0);
    SumNone(lit, 288);
    SumNone(dist, 32);
    var i := 0;
    while i < |codes|
      invariant 0 <= i <= |codes| && CountedFor(codes[..i], lit, dist)
      invariant SumCounts(lit, 288) == i && SumCounts(dist, 32) <= i && lit[END] == 0
    {
      var t := codes[i];
      ghost var lit0, dist0 := lit, dist;
      assert codes[..i + 1] == codes[..i] + [t];
      if t.Literal? {
        SumAdds(lit, t.b as nat, 288);
        lit := lit[t.b as nat := lit[t.b as nat] + 1];
      } else {
        var len, d := STdeflLenSym(t.len - 3), CountedDistSym(t.dist - 1);
        LenTables(t.len - 3);
        LengthBack(t.len - 3);
        DistanceBack(t.dist - 1);
        SumAdds(lit, len, 288);
        SumAdds(dist, d, 32);
        lit := lit[len := lit[len] + 1];
        dist := dist[d := dist[d] + 1];
      }
      CountsGrow(codes[..i], lit0, dist0, lit, dist);
      CountedMore(codes[..i], t, lit, dist);
      i := i + 1;
    }
    assert codes[..i] == codes;
    SumAdds(lit, END, 288);
    ghost var lit0 := lit;
    lit := lit[END := 1];
    CountsGrow(codes, lit0, dist, lit, dist);
  }

  /** The lengths behind the ones sent are zero. */
  ghost predicate TrimmedTo(sizes: Lengths, part: Lengths) {
    |part| <= |sizes| && part == sizes[..|part|] && forall i :: |part| <= i < |sizes| ==> sizes[i] == 0
  }

  lemma TrimmedBuildable(sizes: Lengths, part: Lengths)
    requires TrimmedTo(sizes, part)
    ensures Buildable(sizes) <==> Buildable(part)
  {
    Trimmed(sizes, |part|);
    UsedTrimmed(sizes, part, MAX_BITS);
  }

  lemma {:induction false} UsedTrimmed(sizes: Lengths, part: Lengths, l: nat)
    requires TrimmedTo(sizes, part)
    ensures UsedUpTo(sizes, l) == UsedUpTo(part, l)
  {
    if l > 0 {
      UsedTrimmed(sizes, part, l - 1);
      CountTrimmed(sizes, |part|, l, |sizes|);
    }
  }

  lemma TrimmedCode(lit: Lengths, dist: Lengths, lit': Lengths, dist': Lengths, t: LzCode)
    requires TrimmedTo(lit, lit') && TrimmedTo(dist, dist') && Sendable(lit, dist, t)
    ensures Sendable(lit', dist', t) && LzBits(lit', dist', t) == LzBits(lit, dist, t)
  {
    hide CodeWord, LenSym, DistSym, Low;
    Trimmed(lit, |lit'|);
    Trimmed(dist, |dist'|);
  }

  /** The block is the same with the lengths that the decompressor gets. */
  lemma {:induction false} TrimmedBody(lit: Lengths, dist: Lengths, lit': Lengths, dist': Lengths, ts: seq<LzCode>)
    requires TrimmedTo(lit, lit') && TrimmedTo(dist, dist') && AllSendable(lit, dist, ts)
    ensures AllSendable(lit', dist', ts) && BodyBits(lit', dist', ts) == BodyBits(lit, dist, ts)
  {
    hide LzBits, Sendable, CodeWord, TrimmedTo;
    forall i | 0 <= i < |ts|
      ensures Sendable(lit', dist', ts[i])
    {
      TrimmedCode(lit, dist, lit', dist', ts[i]);
    }
    TrimmedWord(lit, lit', END);
    if ts != [] {
      TrimmedCode(lit, dist, lit', dist', ts[0]);
      TrimmedBody(lit, dist, lit', dist', ts[1..]);
    }
  }

  lemma TrimmedWord(lens: Lengths, part: Lengths, s: nat)
    requires TrimmedTo(lens, part) && Used(lens, s)
    ensures Used(part, s) && CodeWord(part, s) == CodeWord(lens, s)
  {
    Trimmed(lens, |part|);
  }

  lemma {:induction false} FewOccur(counts: seq<nat>, n: nat)
    requires n <= |counts|
    ensures |Occurring(counts, n)| <= n
  {
    if n > 0 { FewOccur(counts, n - 1); }
  }

  /** The counts of a code by tdefl_optimize_huffman_table. */
  method Optimized(counts: seq<nat>, limit: nat) returns (t: Table)
    requires SumCounts(counts, |counts|) < 65536 && (limit == 15 || limit == 7) && (limit == 7 ==> |counts| <= 128)
    requires |counts| <= 288
    ensures HasCodes(t) && Fitting(counts, t.sizes, limit) && Buildable(t.sizes)
  {
    hide Occurring, Fitting, Buildable, HasCodes;
    FewOccur(counts, |counts|);
    FifteenBits();
    EightBits(0);
    assert Pow2(8) == 2 * Pow2(7);
    var sizes, _ := OptimizeTable(counts, limit);
    t := MakeTable(sizes);
  }

  /** Lengths that are zero at the end are not sent. */
  method CodesToSend(sizes: Lengths, from: nat, least: nat) returns (n: nat)
    requires least <= from <= |sizes| && forall i :: from <= i < |sizes| ==> sizes[i] == 0
    ensures least <= n <= from && TrimmedTo(sizes, sizes[..n])
  {
    n := from;
    while n > least && sizes[n - 1] == 0
      invariant least <= n <= from && forall i :: n <= i < |sizes| ==> sizes[i] == 0
    {
      n := n - 1;
    }
  }

  /** No more symbols are packed than there are lengths. */
  lemma {:induction false} UsesTotal(packed: seq<nat>, out: seq<nat>, count: seq<nat>, n: nat)
    requires CodeLengths.Meaning(packed, out).Some? && n <= |count|
    requires forall sym :: 0 <= sym < n ==> count[sym] == CodeLengths.Uses(packed, sym)
    ensures SumCounts(count, n) <= |CodeLengths.Meaning(packed, out).value| - |out|
    decreases |packed|
  {
    if packed == [] {
      SumNone(count, n);
    } else {
      var rest := packed[(if packed[0] < 16 then 1 else 2)..];
      var more := seq(|count|, sym requires 0 <= sym < |count| => CodeLengths.Uses(rest, sym));
      var out' := if packed[0] < 16 then out + [packed[0]]
                  else out + CodeLengths.Run(if packed[0] == 16 then out[|out| - 1] else 0, CodeLengths.Base(packed[0]) + packed[1]);
      UsesTotal(rest, out', more, n);
      OneMore(count, more, packed[0], n);
    }
  }

  lemma {:induction false} OneMore(count: seq<nat>, more: seq<nat>, s: nat, n: nat)
    requires n <= |count| == |more| && forall sym :: 0 <= sym < n ==> count[sym] == more[sym] + if sym == s then 1 else 0
    ensures SumCounts(count, n) == SumCounts(more, n) + if s < n then 1 else 0
  {
    if n > 0 { OneMore(count, more, s, n - 1); }
  }

  method PutSent(w: BitWriter, sent: seq<nat>)
    requires w.Valid() && forall i :: 0 <= i < |sent| ==> sent[i] < 8
    modifies w
    ensures w.Valid() && w.Contents() == old(w.Contents()) + SentBits(sent)
  {
    hide Low;
    ghost var was := w.Contents();
    var i := 0;
    assert sent[0..] == sent;
    while i < |sent|
      invariant 0 <= i <= |sent| && w.Valid() && w.Contents() + SentBits(sent[i..]) == was + SentBits(sent)
    {
      assert sent[i..][1..] == sent[i + 1..];
      PutLow(w, sent[i], 3);
      i := i + 1;
    }
    assert sent[i..] == [];
  }

  method PutPacked(w: BitWriter, bl: Table, packed: seq<nat>)
    requires w.Valid() && HasCodes(bl) && AllPacked(bl.sizes, packed)
    modifies w
    ensures w.Valid() && w.Contents() == old(w.Contents()) + PackedBits(bl.sizes, packed)
  {
    hide Low, CodeWord, HasCodes;
    ghost var was := w.Contents();
    var i := 0;
    assert packed[0..] == packed;
    while i < |packed|
      invariant 0 <= i <= |packed| && w.Valid() && AllPacked(bl.sizes, packed[i..])
      invariant w.Contents() + PackedBits(bl.sizes, packed[i..]) == was + PackedBits(bl.sizes, packed)
    {
      ghost var rest := packed[i..];
      var code := packed[i];
      PutSymbol(w, bl, code);
      if code >= 16 {
        assert rest[2..] == packed[i + 2..];
        PutLow(w, packed[i + 1], FieldBits(code));
        i := i + 2;
      } else {
        assert rest[1..] == packed[i + 1..];
        i := i + 1;
      }
    }
    assert packed[i..] == [];
  }

  /** Every symbol counted has a word. */
  lemma CountedSendable(ts: seq<LzCode>, litCounts: seq<nat>, distCounts: seq<nat>, lit: Lengths, dist: Lengths)
    requires CountedFor(ts, litCounts, distCounts) && litCounts[END] > 0
    requires Fitting(litCounts, lit, 15) && Fitting(distCounts, dist, 15)
    ensures AllSendable(lit, dist, ts)
    ensures forall i :: 286 <= i < |lit| ==> lit[i] == 0
    ensures forall i :: 30 <= i < |dist| ==> dist[i] == 0
    ensures |lit| == 288 && |dist| == 32
  {
    hide LenSym, DistSym;
    forall i | 0 <= i < |ts|
      ensures Sendable(lit, dist, ts[i])
    {
      assert SymbolsCounted(ts[i], litCounts, distCounts);
    }
  }

  /** tdefl_start_dynamic_block: the codes for the block and all that the
      decompressor needs to know of them. */
  method StartDynamicBlock(w: BitWriter, codes: seq<LzCode>) returns (lit: Table, dist: Table, h: Head)
    requires w.Valid() && |codes| < 65535
    modifies w
    ensures w.Valid() && HasCodes(lit) && HasCodes(dist) && AllSendable(lit.sizes, dist.sizes, codes)
    ensures GoodHead(h) && TrimmedTo(lit.sizes, h.lit) && TrimmedTo(dist.sizes, h.dist)
    ensures w.Contents() == old(w.Contents()) + Low(2, 2) + HeadBits(h)
    ensures HeadAt(w.Contents(), |old(w.Contents())|, h)
  {
    hide Low, HasCodes, GoodHead, HeadBits, TrimmedTo, AllSendable, HeadAt, PackedBits;
    lit, dist := BlockTables(codes);
    var bl;
    h, bl := MakeHead(lit, dist);
    PutLow(w, 2, 2);
    PutHead(w, h, bl);
    HeadLaidOut(old(w.Contents()), h, []);
    assert old(w.Contents()) + (Low(2, 2) + HeadBits(h)) + [] == old(w.Contents()) + Low(2, 2) + HeadBits(h);
  }

  method BlockTables(codes: seq<LzCode>) returns (lit: Table, dist: Table)
    requires |codes| < 65535
    ensures HasCodes(lit) && HasCodes(dist) && AllSendable(lit.sizes, dist.sizes, codes)
    ensures |lit.sizes| == 288 && forall i :: 286 <= i < 288 ==> lit.sizes[i] == 0
    ensures |dist.sizes| == 32 && forall i :: 30 <= i < 32 ==> dist.sizes[i] == 0
    ensures Buildable(lit.sizes) && Buildable(dist.sizes)
  {
    hide HasCodes, Fitting, Buildable, SumCounts, CountedFor, AllSendable;
    var litCounts, distCounts := CountSymbols(codes);
    CountedSizes(codes, litCounts, distCounts);
    lit := Optimized(litCounts, 15);
    dist := Optimized(distCounts, 15);
    CountedSendable(codes, litCounts, distCounts, lit.sizes, dist.sizes);
  }

  /** How the lengths are packed and sent. */
  method MakeHead(lit: Table, dist: Table) returns (h: Head, bl: Table)
    requires |lit.sizes| == 288 && forall i :: 286 <= i < 288 ==> lit.sizes[i] == 0
    requires |dist.sizes| == 32 && forall i :: 30 <= i < 32 ==> dist.sizes[i] == 0
    requires Buildable(lit.sizes) && Buildable(dist.sizes)
    ensures GoodHead(h) && TrimmedTo(lit.sizes, h.lit) && TrimmedTo(dist.sizes, h.dist) && HasCodes(bl) && bl.sizes == h.bl
  {
    hide HasCodes, Buildable, AllPacked, TrimmedTo, Swizzled, CodeLengths.Meaning, CodeLengths.Uses;
    var numLit := CodesToSend(lit.sizes, 286, 257);
    var numDist := CodesToSend(dist.sizes, 30, 1);
    TrimmedBuildable(lit.sizes, lit.sizes[..numLit]);
    TrimmedBuildable(dist.sizes, dist.sizes[..numDist]);
    var packer := new CodeLengths.Packer();
    packer.Pack(lit.sizes[..numLit] + dist.sizes[..numDist]);
    var sent;
    bl, sent := LengthCode(packer);
    h := Head(lit.sizes[..numLit], dist.sizes[..numDist], bl.sizes, packer.packed, sent);
  }

  method PutHead(w: BitWriter, h: Head, bl: Table)
    requires w.Valid() && GoodHead(h) && HasCodes(bl) && bl.sizes == h.bl
    modifies w
    ensures w.Valid() && w.Contents() == old(w.Contents()) + HeadBits(h)
  {
    hide Low, HasCodes, Buildable, SentBits, PackedBits, AllPacked, CodeLengths.Meaning;
    PutLow(w, |h.lit| - 257, 5);
    PutLow(w, |h.dist| - 1, 5);
    PutLow(w, |h.sent| - 4, 4);
    SentSmall(h);
    PutSent(w, h.sent);
    PutPacked(w, bl, h.packed);
    FiveParts(old(w.Contents()), Low(|h.lit| - 257, 5), Low(|h.dist| - 1, 5), Low(|h.sent| - 4, 4), SentBits(h.sent),
              PackedBits(bl.sizes, h.packed));
  }

  lemma SentSmall(h: Head)
    requires GoodHead(h)
    ensures forall i :: 0 <= i < |h.sent| ==> h.sent[i] < 8
  {
    hide AllPacked, Buildable, CodeLengths.Meaning;
    forall i | 0 <= i < |h.sent|
      ensures h.sent[i] < 8
    {
      assert h.sent[i] == h.bl[CodeLengths.SWIZZLE[i]];
    }
  }

  lemma CountedSizes(ts: seq<LzCode>, lit: seq<nat>, dist: seq<nat>)
    requires CountedFor(ts, lit, dist)
    ensures |lit| == 288 && |dist| == 32
  {
  }

  lemma FiveParts(z: Bits, a: Bits, b: Bits, c: Bits, d: Bits, e: Bits)
    ensures z + a + b + c + d + e == z + (a + (b + (c + (d + e))))
  {
  }

  /** The code for the packed lengths, and its own lengths in the order in which they are sent. */
  method LengthCode(packer: CodeLengths.Packer) returns (bl: Table, sent: seq<nat>)
    requires packer.Valid() && |CodeLengths.Meaning(packer.packed, []).value| <= 316
    ensures HasCodes(bl) && Buildable(bl.sizes) && (forall i :: 0 <= i < |bl.sizes| ==> bl.sizes[i] < 8)
    ensures |bl.sizes| == 19 && Swizzled(sent, bl.sizes)
    ensures AllPacked(bl.sizes, packer.packed)
  {
    hide HasCodes, Buildable, AllPacked, SumCounts;
    UsesTotal(packer.packed, [], packer.count, 19);
    bl := Optimized(packer.count, 7);
    sent := CodeLengths.Sent(bl.sizes);
    UsesPacked(bl.sizes, packer.packed, []);
  }

  /** tdefl_start_static_block */
  method StartStaticBlock(w: BitWriter) returns (lit: Table, dist: Table)
    requires w.Valid()
    modifies w
    ensures w.Valid() && HasCodes(lit) && HasCodes(dist) && lit.sizes == StaticLit() && dist.sizes == StaticDist()
    ensures w.Contents() == old(w.Contents()) + Low(1, 2) && Field(w.Contents(), |old(w.Contents())|, 2) == 1
  {
    hide Low, HasCodes, Field;
    lit := MakeTable(StaticLit());
    dist := MakeTable(StaticDist());
    PutLow(w, 1, 2);
    Widths();
    FieldAt(old(w.Contents()), 1, 2, []);
    assert old(w.Contents()) + Low(1, 2) + [] == w.Contents();
  }

  /** tdefl_compress_block, with the block's own codes or the fixed ones. */
  method CompressBlock(w: BitWriter, codes: seq<LzCode>, fixed: bool) returns (ghost f: Form)
    requires w.Valid() && |codes| < 65535
    modifies w
    ensures w.Valid() && Formed(f, Block.Coded(codes)) && (if fixed then f.Static? else f.Dynamic?)
    ensures w.Contents() == old(w.Contents()) + BlockBits(f, Block.Coded(codes), |old(w.Contents())|)
  {
    hide Low, HasCodes, GoodHead, HeadBits, TrimmedTo, AllSendable, BodyBits;
    ghost var was := w.Contents();
    if fixed {
      var lit, dist := StartStaticBlock(w);
      StaticSendable(codes);
      CompressLzCodes(w, lit, dist, codes);
      f := Static;
      assert was + Low(1, 2) + BodyBits(StaticLit(), StaticDist(), codes) == was + BlockBits(f, Block.Coded(codes), |was|);
    } else {
      var lit, dist, h := StartDynamicBlock(w, codes);
      CompressLzCodes(w, lit, dist, codes);
      TrimmedBody(lit.sizes, dist.sizes, h.lit, h.dist, codes);
      f := Dynamic(h);
      assert was + Low(2, 2) + HeadBits(h) + BodyBits(h.lit, h.dist, codes) == was + BlockBits(f, Block.Coded(codes), |was|);
    }
  }

  /** A block that would get longer is sent as it is. */
  method StoreBlock(w: BitWriter, bytes: seq<Byte>)
    requires w.Valid() && |bytes| < U16
    modifies w
    ensures w.Valid() && w.Contents() == old(w.Contents()) + BlockBits(Stored, Raw(bytes), |old(w.Contents())|)
    ensures Field(w.Contents(), |old(w.Contents())|, 2) == 0
    ensures StoredAt(w.Contents(), (|old(w.Contents())| + 2 + 7) / 8 * 8, bytes)
  {
    hide Low, BytesBits, Padding, Field, StoredAt;
    StoredBits(w.Contents(), bytes);
    ghost var was := w.Contents();
    PutLow(w, 0, 2);
    w.Align();
    PutLow(w, |bytes|, 16);
    PutLow(w, 0xFFFF - |bytes|, 16);
    PutBytes(w, bytes);
    FiveParts(was, Low(0, 2), Padding(|was| + 2), Low(|bytes|, 16), Low(0xFFFF - |bytes|, 16), BytesBits(bytes));
  }

  method PutBytes(w: BitWriter, bytes: seq<Byte>)
    requires w.Valid()
    modifies w
    ensures w.Valid() && w.Contents() == old(w.Contents()) + BytesBits(bytes)
  {
    hide Low;
    ghost var was := w.Contents();
    var i := 0;
    assert bytes[0..] == bytes;
    while i < |bytes|
      invariant 0 <= i <= |bytes| && w.Valid() && w.Contents() + BytesBits(bytes[i..]) == was + BytesBits(bytes)
    {
      assert bytes[i..][1..] == bytes[i + 1..];
      PutLow(w, bytes[i] as nat, 8);
      i := i + 1;
    }
    assert bytes[i..] == [];
  }

  /** The stream that a compressor has sent. */
  class Sender {
    const w: BitWriter
    ghost var items: seq<Item>

    ghost predicate Valid()
      reads this, w
    {
      w.Valid() && AllFormed(items) && w.Contents() == StreamBits(items, 0)
    }

    constructor ()
      ensures Valid() && items == [] && fresh(w)
    {
      w := new BitWriter();
      items := [];
    }

    /** The part of tdefl_flush_block that makes the bits of a block. */
    method PutBlock(b: Block, final: bool, fixed: bool)
      requires Valid() && (if b.Raw? then |b.bytes| < U16 else |b.tokens| < 65535)
      modifies this, w
      ensures Valid() && |items| == |old(items)| + 1 && items[..|old(items)|] == old(items)
      ensures items[|old(items)|].block == b && items[|old(items)|].final == final
    {
      hide Low, BlockBits, StreamBits, Formed, Field, StoredAt;
      ghost var was := w.Contents();
      PutLow(w, if final then 1 else 0, 1);
      ghost var f := Stored;
      StoredFormed(b);
      if b.Raw? {
        StoreBlock(w, b.bytes);
      } else {
        f := CompressBlock(w, b.tokens, fixed);
      }
      ghost var it := Item(final, f, b);
      StreamAppend(items, it, 0);
      assert w.Contents() == was + ItemBits(it, |was|);
      items := items + [it];
    }

    /** The end of the stream is the end of a byte. */
    method Finish() returns (bytes: seq<Byte>)
      requires Valid()
      modifies w
      ensures BytesBits(bytes) == StreamBits(items, 0) + Padding(|StreamBits(items, 0)|)
    {
      hide Low, StreamBits, Padding;
      w.Align();
      bytes := w.bytes;
      ZeroLow();
    }
  }

  lemma StoredFormed(b: Block)
    ensures b.Raw? && |b.bytes| < U16 ==> Formed(Stored, b)
  {
  }
}
