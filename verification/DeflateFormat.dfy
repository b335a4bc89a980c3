/** What the blocks of a DEFLATE stream look like as bits: sections 3.2.3 to
    3.2.7 of RFC 1951. */
module DeflateFormat {
  import opened HuffmanCode
  import opened HuffmanTree
  import opened LzSymbols
  import opened BitStream
  import CodeLengths
  import LzTokens
  import LzCodeBuffer
  import opened LzWindow

  type LzCode = LzCodeBuffer.Code

  const END: nat := 256

  /** The symbols of a code have words. */
  predicate Sendable(lit: Lengths, dist: Lengths, t: LzCode) {
    match t
    case Literal(b) => Used(lit, b as nat)
    case Match(len, d) => Used(lit, LenSym(len - 3)) && Used(dist, DistSym(d - 1))
  }

  function LzBits(lit: Lengths, dist: Lengths, t: LzCode): Bits
    requires Sendable(lit, dist, t)
  {
    match t
    case Literal(b) => CodeWord(lit, b as nat)
    case Match(len, d) =>
      CodeWord(lit, LenSym(len - 3)) + (Low(len - 3, LenExtra(len - 3))
        + (CodeWord(dist, DistSym(d - 1)) + Low(d - 1, DistExtra(d - 1))))
  }

  ghost predicate AllSendable(lit: Lengths, dist: Lengths, ts: seq<LzCode>) {
    Used(lit, END) && forall i :: 0 <= i < |ts| ==> Sendable(lit, dist, ts[i])
  }

  /** The codes of a block and the symbol that ends it. */
  ghost function BodyBits(lit: Lengths, dist: Lengths, ts: seq<LzCode>): Bits
    requires AllSendable(lit, dist, ts)
  {
    if ts == [] then CodeWord(lit, END) else LzBits(lit, dist, ts[0]) + BodyBits(lit, dist, ts[1..])
  }

  function FieldBits(sym: nat): nat { if sym == 16 then 2 else if sym == 17 then 3 else 7 }

  /** Every symbol of the packed lengths has a word and, above 15, a count that fits. */
  predicate AllPacked(bl: Lengths, packed: seq<nat>)
    decreases |packed|
  {
    packed == [] ||
    (Used(bl, packed[0]) &&
     if packed[0] < 16 then AllPacked(bl, packed[1..])
     else packed[0] <= 18 && |packed| >= 2 && packed[1] < CodeLengths.FieldLimit(packed[0]) && AllPacked(bl, packed[2..]))
  }

  function PackedBits(bl: Lengths, packed: seq<nat>): Bits
    requires AllPacked(bl, packed)
    decreases |packed|
  {
    if packed == [] then []
    else if packed[0] < 16 then CodeWord(bl, packed[0]) + PackedBits(bl, packed[1..])
    else CodeWord(bl, packed[0]) + (Low(packed[1], FieldBits(packed[0])) + PackedBits(bl, packed[2..]))
  }

  /** Every used symbol has a word. */
  lemma {:induction false} UsesPacked(bl: Lengths, packed: seq<nat>, out: seq<nat>)
    requires CodeLengths.Meaning(packed, out).Some?
    requires forall sym :: 0 <= sym < 19 && CodeLengths.Uses(packed, sym) > 0 ==> Used(bl, sym)
    ensures AllPacked(bl, packed)
    decreases |packed|
  {
    if packed != [] {
      assert CodeLengths.Uses(packed, packed[0]) > 0;
      if packed[0] < 16 {
        UsesPacked(bl, packed[1..], out + [packed[0]]);
      } else {
        var x := if packed[0] == 16 then out[|out| - 1] else 0;
        UsesPacked(bl, packed[2..], out + CodeLengths.Run(x, CodeLengths.Base(packed[0]) + packed[1]));
      }
    }
  }

  function SentBits(sent: seq<nat>): Bits {
    if sent == [] then [] else Low(sent[0], 3) + SentBits(sent[1..])
  }

  /** The codes of a block of its own: the lengths that are sent, the code they
      are sent with, and how they are packed. */
  datatype Head = Head(lit: Lengths, dist: Lengths, bl: Lengths, packed: seq<nat>, sent: seq<nat>)

  ghost predicate Swizzled(sent: seq<nat>, bl: seq<nat>) {
    && 4 <= |sent| <= 19 == |bl| && (forall i :: 0 <= i < |sent| ==> sent[i] == bl[CodeLengths.SWIZZLE[i]])
    && (forall i :: |sent| <= i < 19 ==> bl[CodeLengths.SWIZZLE[i]] == 0)
  }

  ghost predicate GoodHead(h: Head) {
    && 257 <= |h.lit| <= 286 && 1 <= |h.dist| <= 30
    && Buildable(h.lit) && Buildable(h.dist) && Buildable(h.bl)
    && (forall i :: 0 <= i < |h.bl| ==> h.bl[i] < 8) && Swizzled(h.sent, h.bl)
    && AllPacked(h.bl, h.packed) && CodeLengths.Meaning(h.packed, []) == CodeLengths.Some(h.lit + h.dist)
  }

  ghost function HeadBits(h: Head): Bits
    requires GoodHead(h)
  {
    Low(|h.lit| - 257, 5) + (Low(|h.dist| - 1, 5) + (Low(|h.sent| - 4, 4) + (SentBits(h.sent) + PackedBits(h.bl, h.packed))))
  }

  /** The fixed codes. */
  function StaticLit(): (lens: Lengths)
    ensures |lens| == 288
  {
    seq(288, i => if i <= 143 then 8 else if i <= 255 then 9 else if i <= 279 then 7 else 8)
  }

  function StaticDist(): (lens: Lengths)
    ensures |lens| == 32
  {
    seq(32, _ => 5)
  }

  function Clamp(x: int, most: nat): nat { if x < 0 then 0 else if x > most then most else x }

  lemma {:induction false} CountStaticLit(l: nat, n: nat)
    requires n <= 288
    ensures Count(StaticLit(), l, n)
         == if l == 8 then Clamp(n, 144) + Clamp(n - 280, 8) else if l == 9 then Clamp(n - 144, 112)
            else if l == 7 then Clamp(n - 256, 24) else 0
  {
    if n > 0 { CountStaticLit(l, n - 1); }
  }

  lemma {:induction false} CountStaticDist(l: nat, n: nat)
    requires n <= 32
    ensures Count(StaticDist(), l, n) == if l == 5 then n else 0
  {
    if n > 0 { CountStaticDist(l, n - 1); }
  }

  /** Up to the shortest length there are no codes, behind the longest the first code only doubles. */
  lemma {:induction false} FirstNone(lens: Lengths, l: nat)
    requires forall k :: 1 <= k < l ==> Total(lens, k) == 0
    ensures First(lens, l) == 0
  {
    if l > 1 { FirstNone(lens, l - 1); }
  }

  lemma {:induction false} FirstDoubles(lens: Lengths, l: nat, m: nat)
    requires 1 <= l <= m && (forall k :: l <= k < m ==> Total(lens, k) == 0) && First(lens, l) == Pow2(l)
    ensures First(lens, m) == Pow2(m)
    decreases m
  {
    if l < m { FirstDoubles(lens, l, m - 1); }
  }

  lemma StaticComplete()
    ensures Complete(StaticLit()) && Complete(StaticDist())
  {
    var lit, dist := StaticLit(), StaticDist();
    forall l ensures Total(lit, l) == if l == 8 then 152 else if l == 9 then 112 else if l == 7 then 24 else 0 {
      CountStaticLit(l, 288);
    }
    FirstNone(lit, 7);
    assert First(lit, 8) == 48 && First(lit, 9) == 400 && First(lit, 10) == 1024;
    EightBits(0);
    assert Pow2(10) == 4 * Pow2(8);
    FirstDoubles(lit, 10, 16);
    forall l ensures Total(dist, l) == if l == 5 then 32 else 0 {
      CountStaticDist(l, 32);
    }
    FirstNone(dist, 5);
    assert First(dist, 6) == 64 == Pow2(6);
    FirstDoubles(dist, 6, 16);
  }

  lemma StaticSendable(ts: seq<LzCode>)
    ensures AllSendable(StaticLit(), StaticDist(), ts)
  {
    forall i | 0 <= i < |ts|
      ensures Sendable(StaticLit(), StaticDist(), ts[i])
    {
      if ts[i].Match? {
        LengthBack(ts[i].len - 3);
        DistanceBack(ts[i].dist - 1);
      }
    }
  }

  /** How a block is sent. */
  datatype Form = Stored | Static | Dynamic(head: Head)

  ghost predicate Formed(f: Form, b: Block) {
    match f
    case Stored => b.Raw? && |b.bytes| < U16
    case Static => b.Coded? && AllSendable(StaticLit(), StaticDist(), b.tokens)
    case Dynamic(h) => b.Coded? && GoodHead(h) && AllSendable(h.lit, h.dist, b.tokens)
  }

  /** A stored block starts at a byte, `at` bits being before it, and has its length twice. */
  ghost function BlockBits(f: Form, b: Block, at: nat): Bits
    requires Formed(f, b)
  {
    match f
    case Stored =>
      Low(0, 2) + (Padding(at + 2) + (Low(|b.bytes|, 16) + (Low(0xFFFF - |b.bytes|, 16) + BytesBits(b.bytes))))
    case Static => Low(1, 2) + BodyBits(StaticLit(), StaticDist(), b.tokens)
    case Dynamic(h) => Low(2, 2) + (HeadBits(h) + BodyBits(h.lit, h.dist, b.tokens))
  }

  datatype Item = Item(final: bool, form: Form, block: Block)

  ghost function ItemBits(it: Item, at: nat): Bits
    requires Formed(it.form, it.block)
  {
    Low(if it.final then 1 else 0, 1) + BlockBits(it.form, it.block, at + 1)
  }

  ghost predicate AllFormed(items: seq<Item>) { forall i :: 0 <= i < |items| ==> Formed(items[i].form, items[i].block) }

  ghost function StreamBits(items: seq<Item>, at: nat): Bits
    requires AllFormed(items)
  {
    if items == [] then []
    else
      var first := ItemBits(items[0], at);
      first + StreamBits(items[1..], at + |first|)
  }

  lemma {:induction false} StreamAppend(items: seq<Item>, it: Item, at: nat)
    requires AllFormed(items) && Formed(it.form, it.block)
    ensures AllFormed(items + [it])
    ensures StreamBits(items + [it], at) == StreamBits(items, at) + ItemBits(it, at + |StreamBits(items, at)|)
    decreases |items|
  {
    hide ItemBits, Formed;
    if items == [] {
      assert [it][1..] == [] && [] + [it] == [it];
      assert ItemBits(it, at) + [] == ItemBits(it, at) == [] + ItemBits(it, at);
    } else {
      assert Formed(items[0].form, items[0].block);
      var first := ItemBits(items[0], at);
      assert (items + [it])[1..] == items[1..] + [it];
      StreamAppend(items[1..], it, at + |first|);
    }
  }

  function Blocks(items: seq<Item>): (bs: seq<Block>)
    ensures |bs| == |items|
  {
    seq(|items|, i requires 0 <= i < |items| => items[i].block)
  }
}
