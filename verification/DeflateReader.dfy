/** Reading blocks: tinfl_decompress on the streams of DeflateWriter. */
module DeflateReader {
  import opened HuffmanCode
  import opened HuffmanTree
  import opened HuffmanTables
  import opened LzSymbols
  import opened BitStream
  import CodeLengths
  import LzTokens
  import opened LzWindow
  import opened DeflateFormat

  /** The bytes of a match, one after the other. */
  method CopyMatch(out: seq<Byte>, len: nat, dist: nat) returns (more: seq<Byte>)
    requires 1 <= dist <= |out|
    ensures more == LzTokens.Copy(out, len, dist)
  {
    more := out;
    var counter := len;
    while counter > 0
      invariant 0 <= counter <= len && dist <= |more| && LzTokens.Copy(more, counter, dist) == LzTokens.Copy(out, len, dist)
    {
      more := more + [more[|more| - dist]];
      counter := counter - 1;
    }
  }

  ghost function FirstSymbol(ts: seq<LzCode>): nat {
    if ts == [] then END else if ts[0].Literal? then ts[0].b as nat else LenSym(ts[0].len - 3)
  }

  /** What follows the first symbol of the codes. */
  ghost function AfterSymbol(lit: Lengths, dist: Lengths, ts: seq<LzCode>): Bits
    requires AllSendable(lit, dist, ts)
  {
    if ts == [] then []
    else if ts[0].Literal? then BodyBits(lit, dist, ts[1..])
    else
      var l, d := ts[0].len - 3, ts[0].dist - 1;
      assert Sendable(lit, dist, ts[0]);
      Low(l, LenExtra(l)) + (CodeWord(dist, DistSym(d)) + (Low(d, DistExtra(d)) + BodyBits(lit, dist, ts[1..])))
  }

  lemma SymbolFirst(lit: Lengths, dist: Lengths, ts: seq<LzCode>, after: Bits)
    requires AllSendable(lit, dist, ts)
    ensures Used(lit, FirstSymbol(ts))
    ensures BodyBits(lit, dist, ts) + after == CodeWord(lit, FirstSymbol(ts)) + (AfterSymbol(lit, dist, ts) + after)
    ensures FirstSymbol(ts) == END <==> ts == []
    ensures ts != [] ==> (FirstSymbol(ts) < END <==> ts[0].Literal?)
  {
    hide CodeWord, BodyBits, AfterSymbol, LenSym, Sendable;
    if ts == [] {
      EndFirst(lit, dist, after);
    } else if ts[0].Literal? {
      LiteralFirst(lit, dist, ts, after);
    } else {
      LengthBack(ts[0].len - 3);
      MatchFirst(lit, dist, ts, after);
    }
  }

  lemma EndFirst(lit: Lengths, dist: Lengths, after: Bits)
    requires AllSendable(lit, dist, [])
    ensures BodyBits(lit, dist, []) + after == CodeWord(lit, END) + (AfterSymbol(lit, dist, []) + after)
  {
    hide CodeWord;
    assert [] + after == after;
  }

  lemma LiteralFirst(lit: Lengths, dist: Lengths, ts: seq<LzCode>, after: Bits)
    requires AllSendable(lit, dist, ts) && ts != [] && ts[0].Literal?
    ensures Used(lit, ts[0].b as nat)
    ensures BodyBits(lit, dist, ts) + after == CodeWord(lit, ts[0].b as nat) + (AfterSymbol(lit, dist, ts) + after)
  {
    hide CodeWord;
    assert Sendable(lit, dist, ts[0]);
    Join(CodeWord(lit, ts[0].b as nat), BodyBits(lit, dist, ts[1..]), after);
  }

  lemma Join(a: Bits, b: Bits, c: Bits)
    ensures a + b + c == a + (b + c)
  {
  }

  lemma BodyStep(lit: Lengths, dist: Lengths, ts: seq<LzCode>)
    requires AllSendable(lit, dist, ts) && ts != []
    ensures Sendable(lit, dist, ts[0]) && AllSendable(lit, dist, ts[1..])
    ensures BodyBits(lit, dist, ts) == LzBits(lit, dist, ts[0]) + BodyBits(lit, dist, ts[1..])
  {
    hide LzBits, Sendable;
  }

  lemma MatchFirst(lit: Lengths, dist: Lengths, ts: seq<LzCode>, after: Bits)
    requires AllSendable(lit, dist, ts) && ts != [] && ts[0].Match?
    ensures var sym := LenSym(ts[0].len - 3);
            Used(lit, sym) && BodyBits(lit, dist, ts) + after == CodeWord(lit, sym) + (AfterSymbol(lit, dist, ts) + after)
  {
    hide CodeWord, Low, LenSym, DistSym, LenExtra, DistExtra, BodyBits, AllSendable;
    BodyStep(lit, dist, ts);
    var l, d := ts[0].len - 3, ts[0].dist - 1;
    FiveJoin(CodeWord(lit, LenSym(l)), Low(l, LenExtra(l)), CodeWord(dist, DistSym(d)), Low(d, DistExtra(d)),
             BodyBits(lit, dist, ts[1..]), after);
  }

  lemma FiveJoin(a: Bits, b: Bits, c: Bits, d: Bits, e: Bits, f: Bits)
    ensures a + (b + (c + d)) + e + f == a + (b + (c + (d + e)) + f)
  {
  }

  /** The rest of a length, after its symbol. */
  method ReadLength(r: BitReader, sym: nat, ghost l: nat, ghost after: Bits) returns (len: nat)
    requires l <= 255 && sym == LenSym(l) && r.Rest() == Low(l, LenExtra(l)) + after
    modifies r
    ensures len == l + 3 && r.Rest() == after
  {
    hide Low, LenSym, LenExtra, Val, Pow2, LengthBase, LengthExtra;
    LengthBack(l);
    ValLowMod(l, LenExtra(l));
    var extra := r.Take(LengthExtra(sym - 257), Low(l, LenExtra(l)), after);
    len := LengthBase(sym - 257) + extra;
  }

  method ReadDistance(r: BitReader, dists: Tables, ghost d: nat, ghost after: Bits) returns (dist: nat)
    requires dists.Valid() && dists.done == |dists.lens| && d < 32768 && Used(dists.lens, DistSym(d))
    requires r.Rest() == CodeWord(dists.lens, DistSym(d)) + (Low(d, DistExtra(d)) + after)
    modifies r
    ensures dist == d + 1 && r.Rest() == after
  {
    hide CodeWord, Low, DistSym, DistExtra, Val, Pow2, DistanceBase, DistanceExtra, Trie, Buildable;
    DistanceBack(d);
    ValLowMod(d, DistExtra(d));
    var s := r.TakeSymbol(dists, DistSym(d), Low(d, DistExtra(d)) + after);
    var extra := r.Take(DistanceExtra(s), Low(d, DistExtra(d)), after);
    dist := DistanceBase(s) + extra;
  }

  /** Length and distance of a match, after its first symbol. */
  method ReadMatch(r: BitReader, sym: nat, dists: Tables, ghost lit: Lengths, ghost ts: seq<LzCode>, ghost after: Bits)
    returns (len: nat, dist: nat)
    requires dists.Valid() && dists.done == |dists.lens| && AllSendable(lit, dists.lens, ts)
    requires ts != [] && ts[0].Match? && sym == LenSym(ts[0].len - 3)
    requires r.Rest() == AfterSymbol(lit, dists.lens, ts) + after
    modifies r
    ensures len == ts[0].len && dist == ts[0].dist && r.Rest() == BodyBits(lit, dists.lens, ts[1..]) + after
  {
    hide CodeWord, Low, LenSym, DistSym, LenExtra, DistExtra, Trie, Buildable, BodyBits, AfterSymbol, Tables.Valid;
    ghost var l, d, more := ts[0].len - 3, ts[0].dist - 1, BodyBits(lit, dists.lens, ts[1..]) + after;
    MatchParts(lit, dists.lens, ts, after);
    len := ReadLength(r, sym, l, CodeWord(dists.lens, DistSym(d)) + (Low(d, DistExtra(d)) + more));
    dist := ReadDistance(r, dists, d, more);
  }

  lemma MatchParts(lit: Lengths, dist: Lengths, ts: seq<LzCode>, after: Bits)
    requires AllSendable(lit, dist, ts) && ts != [] && ts[0].Match?
    ensures var l, d := ts[0].len - 3, ts[0].dist - 1;
            && Used(dist, DistSym(d))
            && AfterSymbol(lit, dist, ts) + after
               == Low(l, LenExtra(l)) + (CodeWord(dist, DistSym(d)) + (Low(d, DistExtra(d)) + (BodyBits(lit, dist, ts[1..]) + after)))
  {
    hide CodeWord, Low, LenSym, DistSym, LenExtra, DistExtra, BodyBits;
    assert Sendable(lit, dist, ts[0]);
    var l, d := ts[0].len - 3, ts[0].dist - 1;
    FourMore(Low(l, LenExtra(l)), CodeWord(dist, DistSym(d)), Low(d, DistExtra(d)), BodyBits(lit, dist, ts[1..]), after);
  }

  lemma FourMore(a: Bits, b: Bits, c: Bits, d: Bits, e: Bits)
    ensures a + (b + (c + d)) + e == a + (b + (c + (d + e)))
  {
  }

  /** The codes of a block: fails when a match reaches back before the first byte. */
  method ReadBody(r: BitReader, lits: Tables, dists: Tables, out: seq<Byte>, ghost ts: seq<LzCode>, ghost after: Bits)
    returns (ok: bool, more: seq<Byte>)
    requires lits.Valid() && lits.done == |lits.lens| && dists.Valid() && dists.done == |dists.lens|
    requires AllSendable(lits.lens, dists.lens, ts) && r.Rest() == BodyBits(lits.lens, dists.lens, ts) + after
    modifies r
    ensures ok <==> LzTokens.Expand(out, ts).Some?
    ensures ok ==> more == LzTokens.Expand(out, ts).value && r.Rest() == after
  {
    hide CodeWord, Low, Trie, Buildable, BodyBits, AfterSymbol, Sendable, LenSym;
    more := out;
    ghost var left, lit, dist := ts, lits.lens, dists.lens;
    while true
      invariant AllSendable(lit, dist, left) && r.Rest() == BodyBits(lit, dist, left) + after
      invariant LzTokens.Expand(more, left) == LzTokens.Expand(out, ts)
      decreases |left|
    {
      SymbolFirst(lit, dist, left, after);
      var counter := r.TakeSymbol(lits, FirstSymbol(left), AfterSymbol(lit, dist, left) + after);
      if counter < 256 {
        more := more + [counter as Byte];
        AfterLiteral(lit, dist, left);
      } else if counter == 256 {
        AfterEnd(lit, dist, after);
        return true, more;
      } else {
        var length, distance := ReadMatch(r, counter, dists, lit, left, after);
        if distance == 0 || distance > |more| { return false, more; }
        more := CopyMatch(more, length, distance);
      }
      left := left[1..];
    }
  }

  lemma AfterLiteral(lit: Lengths, dist: Lengths, ts: seq<LzCode>)
    requires AllSendable(lit, dist, ts) && ts != [] && ts[0].Literal?
    ensures AfterSymbol(lit, dist, ts) == BodyBits(lit, dist, ts[1..])
  {
  }

  lemma AfterEnd(lit: Lengths, dist: Lengths, after: Bits)
    requires AllSendable(lit, dist, [])
    ensures AfterSymbol(lit, dist, []) + after == after
  {
  }

  /** One symbol of the packed lengths. */
  lemma PackedStep(bl: Lengths, packed: seq<nat>, out: seq<nat>, sizes: seq<nat>, after: Bits)
    requires AllPacked(bl, packed) && CodeLengths.Meaning(packed, out) == CodeLengths.Some(sizes) && |out| < |sizes|
    ensures packed != [] && Used(bl, packed[0])
    ensures if packed[0] < 16 then
              && AllPacked(bl, packed[1..])
              && PackedBits(bl, packed) + after == CodeWord(bl, packed[0]) + (PackedBits(bl, packed[1..]) + after)
              && CodeLengths.Meaning(packed[1..], out + [packed[0]]) == CodeLengths.Some(sizes)
            else
              && packed[0] <= 18 && |packed| >= 2 && packed[1] < Pow2(FieldBits(packed[0])) && AllPacked(bl, packed[2..])
              && PackedBits(bl, packed) + after
                 == CodeWord(bl, packed[0]) + (Low(packed[1], FieldBits(packed[0])) + (PackedBits(bl, packed[2..]) + after))
              && (packed[0] == 16 ==> out != [])
              && CodeLengths.Meaning(packed[2..], out + CodeLengths.Run(if packed[0] == 16 then out[|out| - 1] else 0,
                                                                    CodeLengths.Base(packed[0]) + packed[1]))
                 == CodeLengths.Some(sizes)
  {
    hide CodeWord, Low;
    assert Pow2(2) == 4 && Pow2(3) == 8;
    EightBits(0);
    assert Pow2(8) == 2 * Pow2(7);
    if packed != [] && packed[0] >= 16 {
      Join(CodeWord(bl, packed[0]), Low(packed[1], FieldBits(packed[0])) + PackedBits(bl, packed[2..]), after);
      Join(Low(packed[1], FieldBits(packed[0])), PackedBits(bl, packed[2..]), after);
    } else if packed != [] {
      Join(CodeWord(bl, packed[0]), PackedBits(bl, packed[1..]), after);
    }
  }

  lemma NotBeyond(packed: seq<nat>, out: seq<nat>, sizes: seq<nat>)
    requires CodeLengths.Meaning(packed, out) == CodeLengths.Some(sizes)
    ensures out <= sizes && (|out| == |sizes| ==> packed == [])
  {
    CodeLengths.MeaningGrows(packed, out);
  }

  /** The lengths of a block's codes. */
  method ReadLengths(r: BitReader, t: Tables, total: nat, ghost packed: seq<nat>, ghost sizes: seq<nat>, ghost after: Bits)
    returns (codes: array<nat>)
    requires t.Valid() && t.done == |t.lens| && AllPacked(t.lens, packed) && total <= CodeLengths.MAX_CODES
    requires CodeLengths.Meaning(packed, []) == CodeLengths.Some(sizes) && |sizes| == total
    requires r.Rest() == PackedBits(t.lens, packed) + after
    modifies r
    ensures fresh(codes) && codes.Length >= total && codes[..total] == sizes && r.Rest() == after
  {
    hide CodeWord, Low, Trie, Buildable, PackedBits, AllPacked, CodeLengths.Meaning, Val, Pow2;
    codes := new nat[CodeLengths.CODES_ROOM](_ => 0);
    ghost var left, bl := packed, t.lens;
    var counter := 0;
    NotBeyond(left, [], sizes);
    assert codes[..0] == [];
    while counter < total
      invariant counter <= total && AllPacked(bl, left) && t.Valid() && r.Rest() == PackedBits(bl, left) + after
      invariant CodeLengths.Meaning(left, codes[..counter]) == CodeLengths.Some(sizes)
    {
      PackedStep(bl, left, codes[..counter], sizes, after);
      ghost var more := PackedBits(bl, left[if left[0] < 16 then 1 else 2..]) + after;
      ghost var field := if left[0] < 16 then [] else Low(left[1], FieldBits(left[0]));
      var dist := r.TakeSymbol(t, left[0], if left[0] < 16 then more else field + more);
      if dist < 16 {
        codes[counter] := dist;
        assert codes[..counter + 1] == codes[..counter] + [dist];
        counter := counter + 1;
        left := left[1..];
      } else {
        ValLow(left[1], FieldBits(left[0]));
        var s := r.Take(FieldBits(dist), field, more);
        s := s + CodeLengths.Base(dist);
        ghost var run := CodeLengths.Run(if dist == 16 then codes[counter - 1] else 0, s);
        NotBeyond(left[2..], codes[..counter] + run, sizes);
        CodeLengths.SetRun(codes, counter, if dist == 16 then codes[counter - 1] else 0, s);
        counter := counter + s;
        left := left[2..];
      }
      NotBeyond(left, codes[..counter], sizes);
    }
    NotBeyond(left, codes[..counter], sizes);
    NothingLeft(bl, after);
  }

  lemma NothingLeft(bl: Lengths, after: Bits)
    ensures AllPacked(bl, []) && PackedBits(bl, []) + after == after
  {
  }

  /** The lengths of the code for lengths, three bits each. */
  method ReadSent(r: BitReader, n: nat, ghost sent: seq<nat>, ghost after: Bits) returns (got: seq<nat>)
    requires n == |sent| && (forall i :: 0 <= i < n ==> sent[i] < 8) && r.Rest() == SentBits(sent) + after
    modifies r
    ensures got == sent && r.Rest() == after
  {
    hide Low, Val;
    got := [];
    assert sent[0..] == sent && Pow2(3) == 8;
    while |got| < n
      invariant |got| <= n && got == sent[..|got|] && r.Rest() == SentBits(sent[|got|..]) + after
    {
      ghost var left := sent[|got|..];
      assert left[1..] == sent[|got| + 1..];
      Join(Low(left[0], 3), SentBits(left[1..]), after);
      ValLow(left[0], 3);
      var s := r.Take(3, Low(left[0], 3), SentBits(left[1..]) + after);
      got := got + [s];
    }
    assert sent[n..] == [] && [] + after == after;
  }

  /** What comes before the codes of a block with codes of its own. */
  method ReadHead(r: BitReader, ghost h: Head, ghost after: Bits) returns (lit: Lengths, dist: Lengths)
    requires GoodHead(h) && r.Rest() == HeadBits(h) + after
    modifies r
    ensures lit == h.lit && dist == h.dist && r.Rest() == after
  {
    hide Low, Val, Pow2, Trie, Buildable, AllPacked, PackedBits, SentBits, CodeLengths.Meaning;
    ghost var packed := PackedBits(h.bl, h.packed);
    HeadParts(h, after);
    HeadFields(h);
    var n0 := r.Take(5, Low(|h.lit| - 257, 5),
                     Low(|h.dist| - 1, 5) + (Low(|h.sent| - 4, 4) + (SentBits(h.sent) + (packed + after))));
    var n1 := r.Take(5, Low(|h.dist| - 1, 5), Low(|h.sent| - 4, 4) + (SentBits(h.sent) + (packed + after)));
    var n2 := r.Take(4, Low(|h.sent| - 4, 4), SentBits(h.sent) + (packed + after));
    var sent := ReadSent(r, n2 + 4, h.sent, packed + after);
    var bl := CodeLengths.Received(sent, h.bl);
    var ok, t := BuildTables(bl, 38);
    var total := n0 + 257 + n1 + 1;
    var codes := ReadLengths(r, t, total, h.packed, h.lit + h.dist, after);
    assert codes[..n0 + 257] == h.lit && codes[n0 + 257..total] == h.dist;
    lit, dist := codes[..n0 + 257], codes[n0 + 257..total];
  }

  lemma HeadParts(h: Head, after: Bits)
    requires GoodHead(h)
    ensures HeadBits(h) + after
         == Low(|h.lit| - 257, 5) + (Low(|h.dist| - 1, 5) + (Low(|h.sent| - 4, 4)
            + (SentBits(h.sent) + (PackedBits(h.bl, h.packed) + after))))
  {
    hide Low, Buildable, AllPacked, PackedBits, SentBits, CodeLengths.Meaning;
    FiveJoins(Low(|h.lit| - 257, 5), Low(|h.dist| - 1, 5), Low(|h.sent| - 4, 4), SentBits(h.sent),
              PackedBits(h.bl, h.packed), after);
  }

  lemma FiveJoins(a: Bits, b: Bits, c: Bits, d: Bits, e: Bits, f: Bits)
    ensures a + (b + (c + (d + e))) + f == a + (b + (c + (d + (e + f))))
  {
  }

  lemma HeadFields(h: Head)
    requires GoodHead(h)
    ensures Val(Low(|h.lit| - 257, 5)) == |h.lit| - 257 && Val(Low(|h.dist| - 1, 5)) == |h.dist| - 1
    ensures Val(Low(|h.sent| - 4, 4)) == |h.sent| - 4
    ensures forall i :: 0 <= i < |h.sent| ==> h.sent[i] < 8
  {
    hide Low, Val, Buildable, AllPacked, PackedBits, SentBits, CodeLengths.Meaning;
    assert Pow2(4) == 16 && Pow2(5) == 2 * Pow2(4);
    ValLow(|h.lit| - 257, 5);
    ValLow(|h.dist| - 1, 5);
    ValLow(|h.sent| - 4, 4);
    forall i | 0 <= i < |h.sent|
      ensures h.sent[i] < 8
    {
      assert h.sent[i] == h.bl[CodeLengths.SWIZZLE[i]];
    }
  }

  /** The bytes of a stored block, behind its length and the complement of that. */
  method ReadStored(r: BitReader, out: seq<Byte>, ghost bytes: seq<Byte>, ghost at: nat, ghost after: Bits)
    returns (ok: bool, more: seq<Byte>)
    requires |bytes| < U16 && (at + r.left) % 8 == 0
    requires r.Rest() == Padding(at) + (Low(|bytes|, 16) + (Low(0xFFFF - |bytes|, 16) + (BytesBits(bytes) + after)))
    modifies r
    ensures ok && more == out + bytes && r.Rest() == after
  {
    hide Low, Val, Padding, BytesBits;
    ghost var n, rest := |bytes|, BytesBits(bytes) + after;
    SixteenBits(n);
    SixteenBits(0xFFFF - n);
    r.SkipToByte(at, Low(n, 16) + (Low(0xFFFF - n, 16) + rest));
    var counter := r.Take(16, Low(n, 16), Low(0xFFFF - n, 16) + rest);
    var check := r.Take(16, Low(0xFFFF - n, 16), rest);
    more := out;
    ok := counter == 0xFFFF - check;
    if !ok { return; }
    more := ReadBytes(r, out, counter, bytes, after);
  }

  lemma SixteenBits(n: nat)
    requires n < U16
    ensures Val(Low(n, 16)) == n
  {
    FifteenBits();
    assert Pow2(16) == 2 * Pow2(15);
    ValLow(n, 16);
  }

  method ReadBytes(r: BitReader, out: seq<Byte>, n: nat, ghost bytes: seq<Byte>, ghost after: Bits) returns (more: seq<Byte>)
    requires n == |bytes| && r.Rest() == BytesBits(bytes) + after
    modifies r
    ensures more == out + bytes && r.Rest() == after
  {
    hide Low, Val;
    more := out;
    var i := 0;
    assert bytes[0..] == bytes;
    while i < n
      invariant 0 <= i <= n && more == out + bytes[..i] && r.Rest() == BytesBits(bytes[i..]) + after
    {
      ghost var left := bytes[i..];
      assert left[1..] == bytes[i + 1..] && bytes[..i + 1] == bytes[..i] + [bytes[i]];
      Join(Low(left[0] as nat, 8), BytesBits(left[1..]), after);
      EightBits(0);
      ValLow(left[0] as nat, 8);
      var b := r.Take(8, Low(left[0] as nat, 8), BytesBits(left[1..]) + after);
      more := more + [b as Byte];
      i := i + 1;
    }
    assert bytes[n..] == [] && [] + after == after && bytes[..n] == bytes;
  }

  /** The bits of a block behind its header. */
  ghost function Payload(f: Form, b: Block, at: nat): Bits
    requires Formed(f, b)
  {
    match f
    case Stored => Padding(at) + (Low(|b.bytes|, 16) + (Low(0xFFFF - |b.bytes|, 16) + BytesBits(b.bytes)))
    case Static => BodyBits(StaticLit(), StaticDist(), b.tokens)
    case Dynamic(h) => HeadBits(h) + BodyBits(h.lit, h.dist, b.tokens)
  }

  function Kind(f: Form): (k: nat)
    ensures k < 4
  {
    if f.Stored? then 0 else if f.Static? then 1 else 2
  }

  /** The three bits of the header: whether the block is the last, and its kind. */
  lemma HeaderFirst(it: Item, at: nat, after: Bits)
    requires Formed(it.form, it.block)
    ensures var last, kind := if it.final then 1 else 0, Kind(it.form);
            && ItemBits(it, at) + after == Low(last + 2 * kind, 3) + (Payload(it.form, it.block, at + 3) + after)
            && Val(Low(last + 2 * kind, 3)) == last + 2 * kind
  {
    hide BodyBits, HeadBits, BytesBits, Padding, AllSendable, GoodHead;
    var last, kind := if it.final then 1 else 0, Kind(it.form);
    assert Pow2(3) == 8 && Pow2(1) == 2;
    ValLow(last + 2 * kind, 3);
    LowJoin(last, kind, 1, 2);
    assert Shl(kind, 1) == 2 * kind;
    Join(Low(last, 1), Low(kind, 2), Payload(it.form, it.block, at + 3) + after);
    ItemParts(it, at);
    FourJoin(Low(last, 1), Low(kind, 2), Payload(it.form, it.block, at + 3), after);
  }

  lemma FourJoin(a: Bits, b: Bits, c: Bits, d: Bits)
    ensures a + (b + c) + d == a + b + (c + d)
  {
  }

  lemma ItemParts(it: Item, at: nat)
    requires Formed(it.form, it.block)
    ensures ItemBits(it, at) == Low(if it.final then 1 else 0, 1) + (Low(Kind(it.form), 2) + Payload(it.form, it.block, at + 3))
  {
    hide BodyBits, HeadBits, BytesBits, Padding, AllSendable, GoodHead, Low;
  }

  /** The tables for a block's codes, and the codes. */
  method ReadCoded(r: BitReader, lit: Lengths, dist: Lengths, out: seq<Byte>, ghost ts: seq<LzCode>, ghost after: Bits)
    returns (ok: bool, more: seq<Byte>)
    requires Buildable(lit) && Buildable(dist) && |lit| <= 288 && |dist| <= 32
    requires AllSendable(lit, dist, ts) && r.Rest() == BodyBits(lit, dist, ts) + after
    modifies r
    ensures ok <==> LzTokens.Expand(out, ts).Some?
    ensures ok ==> more == LzTokens.Expand(out, ts).value && r.Rest() == after
  {
    hide Low, Trie, Buildable, BodyBits, AllSendable;
    var built, lits := BuildTables(lit, 576);
    var built', dists := BuildTables(dist, 64);
    ok, more := ReadBody(r, lits, dists, out, ts, after);
  }

  /** One block; it fails when a match in it reaches back too far. */
  method ReadBlock(r: BitReader, out: seq<Byte>, ghost it: Item, ghost at: nat, ghost after: Bits)
    returns (ok: bool, final: bool, more: seq<Byte>)
    requires Formed(it.form, it.block) && r.Rest() == ItemBits(it, at) + after && (at + r.left) % 8 == 0
    modifies r
    ensures ok <==> ExpandBlock(out, it.block).Some?
    ensures ok ==> final == it.final && more == ExpandBlock(out, it.block).value && r.Rest() == after
  {
    hide Low, Val, BodyBits, HeadBits, BytesBits, Padding, AllSendable, GoodHead, ItemBits, Buildable;
    ghost var f, b := it.form, it.block;
    HeaderFirst(it, at, after);
    ghost var left0 := r.left;
    var header := r.Take(3, Low((if it.final then 1 else 0) + 2 * Kind(f), 3), Payload(f, b, at + 3) + after);
    final := header % 2 == 1;
    var kind := header / 2;
    if kind == 0 {
      StoredPayload(b, at + 3, after);
      assert |r.Rest()| == r.left;
      ok, more := ReadStored(r, out, b.bytes, at + 3, after);
    } else if kind == 1 {
      StaticBuildable();
      ok, more := ReadCoded(r, StaticLit(), StaticDist(), out, b.tokens, after);
    } else {
      HeadGood(f.head);
      Join(HeadBits(f.head), BodyBits(f.head.lit, f.head.dist, b.tokens), after);
      var lit, dist := ReadHead(r, f.head, BodyBits(f.head.lit, f.head.dist, b.tokens) + after);
      ok, more := ReadCoded(r, lit, dist, out, b.tokens, after);
    }
  }

  lemma StoredPayload(b: Block, at: nat, after: Bits)
    requires Formed(Stored, b)
    ensures Payload(Stored, b, at) + after
         == Padding(at) + (Low(|b.bytes|, 16) + (Low(0xFFFF - |b.bytes|, 16) + (BytesBits(b.bytes) + after)))
  {
    hide Low, BytesBits, Padding;
    FourMore(Padding(at), Low(|b.bytes|, 16), Low(0xFFFF - |b.bytes|, 16), BytesBits(b.bytes), after);
  }

  lemma StaticBuildable()
    ensures Buildable(StaticLit()) && Buildable(StaticDist())
  {
    hide Complete;
    StaticComplete();
  }

  lemma HeadGood(h: Head)
    requires GoodHead(h)
    ensures Buildable(h.lit) && Buildable(h.dist) && |h.lit| <= 288 && |h.dist| <= 32
  {
  }

  /** Only the last block says that it is. */
  ghost predicate Closed(items: seq<Item>) {
    items != [] && forall i :: 0 <= i < |items| ==> (items[i].final <==> i == |items| - 1)
  }

  /** tinfl_decompress on a whole stream: the bytes that the blocks stand for,
      or failure when they do not stand for anything. */
  method ReadStream(src: seq<Byte>, ghost items: seq<Item>, ghost after: Bits) returns (ok: bool, out: seq<Byte>)
    requires AllFormed(items) && Closed(items) && BytesBits(src) == StreamBits(items, 0) + after
    ensures ok <==> ExpandAll([], Blocks(items)).Some?
    ensures ok ==> out == ExpandAll([], Blocks(items)).value
  {
    hide Low, BytesBits, StreamBits, ItemBits, Formed;
    var r := new BitReader(src);
    ghost var left, at: nat := items, 0;
    var final := false;
    ok, out := true, [];
    while !final
      invariant AllFormed(left) && ok && (if final then left == [] else Closed(left))
      invariant r.Rest() == StreamBits(left, at) + after && (at + r.left) % 8 == 0
      invariant ExpandAll([], Blocks(items)) == ExpandAll(out, Blocks(left))
      decreases |left|
    {
      ghost var it := left[0];
      ghost var first, rest := ItemBits(it, at), StreamBits(left[1..], at + |ItemBits(it, at)|);
      StreamStep(left, at, after);
      assert |r.Rest()| == r.left;
      ok, final, out := ReadBlock(r, out, it, at, rest + after);
      assert Blocks(left)[1..] == Blocks(left[1..]);
      if !ok { return; }
      assert |r.Rest()| == r.left;
      left, at := left[1..], at + |first|;
    }
  }

  lemma StreamStep(items: seq<Item>, at: nat, after: Bits)
    requires AllFormed(items) && items != []
    ensures Formed(items[0].form, items[0].block) && AllFormed(items[1..])
    ensures var first := ItemBits(items[0], at);
            StreamBits(items, at) + after == first + (StreamBits(items[1..], at + |first|) + after)
  {
    hide ItemBits, Formed;
    assert Formed(items[0].form, items[0].block);
    Join(ItemBits(items[0], at), StreamBits(items[1..], at + |ItemBits(items[0], at)|), after);
  }
}
