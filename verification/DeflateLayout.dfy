/** What is where in the bits of a stream, in the numbers of RFC 1951. */
module DeflateLayout {
  import opened HuffmanCode
  import opened LzSymbols
  import opened BitStream
  import opened HuffmanTree
  import CodeLengths
  import LzTokens
  import opened LzWindow
  import opened DeflateFormat

  /** A number whose lowest bit comes first. */
  function Field(bits: Bits, at: nat, n: nat): (v: nat)
    requires at + n <= |bits|
    decreases n
  {
    if n == 0 then 0 else (if bits[at] then 1 else 0) + 2 * Field(bits, at + 1, n - 1)
  }

  /** A number whose highest bit comes first, as Huffman codes are sent. */
  function HighFirst(bits: Bits, at: nat, n: nat): (v: nat)
    requires at + n <= |bits|
  {
    if n == 0 then 0 else 2 * HighFirst(bits, at, n - 1) + if bits[at + n - 1] then 1 else 0
  }

  lemma {:induction false} FieldWithin(a: Bits, at: nat, b: Bits, k: nat, n: nat)
    requires at + n <= |a| && k + n <= |b| && a[at..at + n] == b[k..k + n]
    ensures Field(a, at, n) == Field(b, k, n)
    decreases n
  {
    if n > 0 {
      assert a[at] == a[at..at + n][0] && b[k] == b[k..k + n][0];
      assert a[at + 1..at + n] == a[at..at + n][1..] && b[k + 1..k + n] == b[k..k + n][1..];
      FieldWithin(a, at + 1, b, k + 1, n - 1);
    }
  }

  lemma {:induction false} FieldLow(v: nat, n: nat)
    requires v < Pow2(n)
    ensures Field(Low(v, n), 0, n) == v
  {
    if n > 0 {
      FieldLow(v / 2, n - 1);
      var w := Low(v, n);
      assert w[1..] == Low(v / 2, n - 1);
      assert w[1..n] == w[1..] && w[1..][0..n - 1] == w[1..];
      FieldWithin(w, 1, Low(v / 2, n - 1), 0, n - 1);
    }
  }

  /** A number of `n` bits that was put behind other bits. */
  lemma FieldAt(before: Bits, v: nat, n: nat, after: Bits)
    requires v < Pow2(n)
    ensures Field(before + Low(v, n) + after, |before|, n) == v
  {
    hide Low, Field;
    FieldLow(v, n);
    FieldIn(before, Low(v, n), after, 0, n);
  }

  lemma FieldIn(before: Bits, bits: Bits, after: Bits, at: nat, n: nat)
    requires at + n <= |bits|
    ensures Field(before + bits + after, |before| + at, n) == Field(bits, at, n)
  {
    hide Field;
    var all := before + bits + after;
    assert all[|before| + at..|before| + at + n] == bits[at..at + n];
    FieldWithin(all, |before| + at, bits, at, n);
  }

  lemma {:induction false} HighFirstNum(w: Bits, n: nat)
    requires n <= |w|
    ensures HighFirst(w, 0, n) == Num(w[..n])
  {
    if n > 0 {
      HighFirstNum(w, n - 1);
      assert w[..n][..n - 1] == w[..n - 1];
    }
  }

  lemma Widths()
    ensures Pow2(0) == 1 && Pow2(1) == 2 && Pow2(2) == 4 && Pow2(3) == 8 && Pow2(4) == 16 && Pow2(5) == 32
    ensures Pow2(7) == 128 && Pow2(8) == 256 && Pow2(9) == 512 && Pow2(16) == 65536
  {
    assert Pow2(2) == 2 * Pow2(1) && Pow2(4) == 2 * Pow2(3);
    EightBits(0);
    FifteenBits();
  }

  /** Bytes go out lowest bit first. */
  lemma {:induction false} ByteAt(s: seq<Byte>, i: nat)
    requires i < |s|
    ensures Field(BytesBits(s), 8 * i, 8) == s[i] as nat
  {
    hide Low, Field;
    EightBits(0);
    var first, rest := Low(s[0] as nat, 8), BytesBits(s[1..]);
    if i == 0 {
      FieldAt([], s[0] as nat, 8, rest);
      assert [] + first + rest == BytesBits(s);
    } else {
      ByteAt(s[1..], i - 1);
      FieldIn(first, rest, [], 8 * (i - 1), 8);
      assert first + rest + [] == BytesBits(s);
    }
  }

  // ----- Blocks -----

  /** The three bits that every block starts with. */
  lemma BlockStart(it: Item, at: nat)
    requires Formed(it.form, it.block)
    ensures var b := ItemBits(it, at);
      && |b| >= 3 && Field(b, 0, 1) == (if it.final then 1 else 0)
      && Field(b, 1, 2) == if it.form.Stored? then 0 else if it.form.Static? then 1 else 2
  {
    hide Low, Field, HeadBits, BodyBits, Formed, BytesBits, Padding;
    Widths();
    var b, f := ItemBits(it, at), if it.final then 1 else 0;
    var kind := if it.form.Stored? then 0 else if it.form.Static? then 1 else 2;
    var rest := b[3..];
    assert b == [] + Low(f, 1) + (Low(kind, 2) + rest);
    assert b == Low(f, 1) + Low(kind, 2) + rest;
    FieldAt([], f, 1, Low(kind, 2) + rest);
    FieldAt(Low(f, 1), kind, 2, rest);
  }

  /** The bits of a stored block from `p` on, the first place behind its header
      where a byte of the stream begins. */
  ghost predicate StoredAt(bits: Bits, p: nat, bytes: seq<Byte>) {
    && p + 32 + 8 * |bytes| == |bits|
    && Field(bits, p, 16) == |bytes| && Field(bits, p + 16, 16) == 65535 - |bytes|
    && forall i :: 0 <= i < |bytes| ==> Field(bits, p + 32 + 8 * i, 8) == bytes[i] as nat
  }

  /** Behind the kind of the block, 0: zeros up to a byte, length, complement, bytes. */
  lemma StoredBits(before: Bits, bytes: seq<Byte>)
    requires |bytes| < U16
    ensures var bits := before + BlockBits(Stored, Raw(bytes), |before|);
      var k, p := |before| + 2, (|before| + 2 + 7) / 8 * 8;
      && Field(bits, |before|, 2) == 0 && k <= p && p % 8 == 0
      && (forall i :: k <= i < p ==> !bits[i]) && StoredAt(bits, p, bytes)
  {
    hide Low, Field, BytesBits, Pow2, StoredAt, Padding;
    Widths();
    var k := |before| + 2;
    var pad, rest := Padding(k), Low(|bytes|, 16) + (Low(65535 - |bytes|, 16) + BytesBits(bytes));
    PaddingZero(k);
    FieldAt(before, 0, 2, pad + rest);
    StoredBehind(before + Low(0, 2) + pad, bytes);
    Joins(before, Low(0, 2), pad, rest);
    forall i | k <= i < k + |pad|
      ensures !(before + (Low(0, 2) + (pad + rest)))[i]
    {
      assert (before + Low(0, 2) + (pad + rest))[i] == pad[i - k];
    }
  }

  lemma Joins(a: Bits, b: Bits, c: Bits, d: Bits)
    ensures a + (b + (c + d)) == a + b + (c + d) == a + b + c + d
  {
  }

  lemma PaddingZero(k: nat)
    ensures k + |Padding(k)| == (k + 7) / 8 * 8 && forall i :: 0 <= i < |Padding(k)| ==> !Padding(k)[i]
  {
    forall i | 0 <= i < |Padding(k)|
      ensures !Padding(k)[i]
    {
      LowZero(|Padding(k)|, i);
    }
  }

  lemma StoredBehind(front: Bits, bytes: seq<Byte>)
    requires |bytes| < U16
    ensures StoredAt(front + (Low(|bytes|, 16) + (Low(65535 - |bytes|, 16) + BytesBits(bytes))), |front|, bytes)
  {
    hide Low, Field, BytesBits, Pow2;
    Widths();
    var n, m, s := Low(|bytes|, 16), Low(65535 - |bytes|, 16), BytesBits(bytes);
    var bits := front + (n + (m + s));
    assert bits == front + n + (m + s);
    FieldAt(front, |bytes|, 16, m + s);
    assert bits == (front + n) + m + s;
    FieldAt(front + n, 65535 - |bytes|, 16, s);
    assert bits == (front + n + m) + s + [];
    forall i | 0 <= i < |bytes|
      ensures Field(bits, |front| + 32 + 8 * i, 8) == bytes[i] as nat
    {
      ByteAt(bytes, i);
      FieldIn(front + n + m, s, [], 8 * i, 8);
    }
  }

  lemma {:induction false} LowZero(n: nat, i: nat)
    requires i < n
    ensures !Low(0, n)[i]
  {
    if i > 0 { LowZero(n - 1, i - 1); }
  }

  /** The lengths of the length code that are sent, three bits each from `p` on. */
  ghost predicate LengthsAt(bits: Bits, p: nat, n: nat, bl: Lengths) {
    && 4 <= n <= 19 == |bl| && p + 3 * n <= |bits|
    && Field(bits, p, 3) == bl[16] && Field(bits, p + 3, 3) == bl[17] && Field(bits, p + 6, 3) == bl[18]
    && Field(bits, p + 9, 3) == bl[0]
    && (forall i :: 4 <= i < n ==> Field(bits, p + 3 * i, 3) == if i % 2 == 0 then bl[8 + (i - 4) / 2] else bl[8 - (i - 3) / 2])
    && (forall i :: n <= i < 19 ==> 0 == if i % 2 == 0 then bl[8 + (i - 4) / 2] else bl[8 - (i - 3) / 2])
  }

  /** The header of a block with codes of its own, from its kind on. */
  ghost predicate HeadAt(bits: Bits, at: nat, h: Head) {
    && at + 16 <= |bits| && Field(bits, at, 2) == 2
    && Field(bits, at + 2, 5) + 257 == |h.lit| && Field(bits, at + 7, 5) + 1 == |h.dist|
    && Field(bits, at + 12, 4) + 4 == |h.sent| && LengthsAt(bits, at + 16, |h.sent|, h.bl)
  }

  lemma {:induction false} SentAt(sent: seq<nat>, i: nat)
    requires i < |sent| && sent[i] < 8
    ensures 3 * |sent| == |SentBits(sent)| && Field(SentBits(sent), 3 * i, 3) == sent[i]
  {
    hide Low, Field;
    Widths();
    SentLength(sent);
    var first, rest := Low(sent[0], 3), SentBits(sent[1..]);
    if i == 0 {
      FieldAt([], sent[0], 3, rest);
      assert [] + first + rest == SentBits(sent);
    } else {
      SentAt(sent[1..], i - 1);
      FieldIn(first, rest, [], 3 * (i - 1), 3);
      assert first + rest + [] == SentBits(sent);
    }
  }

  lemma {:induction false} SentLength(sent: seq<nat>)
    ensures |SentBits(sent)| == 3 * |sent|
  {
    if sent != [] { SentLength(sent[1..]); }
  }

  lemma SentLengths(before: Bits, h: Head, after: Bits)
    requires GoodHead(h)
    ensures LengthsAt(before + SentBits(h.sent) + after, |before|, |h.sent|, h.bl)
  {
    hide Field, SentBits, AllPacked, Buildable, CodeLengths.Meaning;
    var bits := before + SentBits(h.sent) + after;
    SentLength(h.sent);
    SentPlace(before, h, after, 0);
    SentPlace(before, h, after, 1);
    SentPlace(before, h, after, 2);
    SentPlace(before, h, after, 3);
    forall i | 4 <= i < |h.sent|
      ensures Field(bits, |before| + 3 * i, 3) == if i % 2 == 0 then h.bl[8 + (i - 4) / 2] else h.bl[8 - (i - 3) / 2]
    {
      SentPlace(before, h, after, i);
    }
    forall i | |h.sent| <= i < 19
      ensures 0 == if i % 2 == 0 then h.bl[8 + (i - 4) / 2] else h.bl[8 - (i - 3) / 2]
    {
      CodeLengths.SwizzlePlace(i);
    }
  }

  lemma SentPlace(before: Bits, h: Head, after: Bits, i: nat)
    requires GoodHead(h) && i < |h.sent|
    ensures |before| + 3 * i + 3 <= |before + SentBits(h.sent) + after|
    ensures Field(before + SentBits(h.sent) + after, |before| + 3 * i, 3)
         == h.bl[if i < 3 then 16 + i else if i == 3 then 0 else if i % 2 == 0 then 8 + (i - 4) / 2 else 8 - (i - 3) / 2]
  {
    hide Field, SentBits, AllPacked, Buildable, CodeLengths.Meaning;
    CodeLengths.SwizzlePlace(i);
    SentLength(h.sent);
    SentAt(h.sent, i);
    FieldIn(before, SentBits(h.sent), after, 3 * i, 3);
  }

  /** The counts and lengths have their places in the header. */
  lemma HeadLaidOut(before: Bits, h: Head, after: Bits)
    requires GoodHead(h)
    ensures HeadAt(before + (Low(2, 2) + HeadBits(h)) + after, |before|, h)
    ensures |h.sent| >= 4 && (before + (Low(2, 2) + HeadBits(h)) + after)[|before| + 16 + 3 * |h.sent|..] == PackedBits(h.bl, h.packed) + after
  {
    hide Field, Low, SentBits, PackedBits, AllPacked, Buildable, CodeLengths.Meaning, LengthsAt;
    Widths();
    var kind, a, b, c := Low(2, 2), Low(|h.lit| - 257, 5), Low(|h.dist| - 1, 5), Low(|h.sent| - 4, 4);
    var s, p := SentBits(h.sent), PackedBits(h.bl, h.packed);
    SentLength(h.sent);
    var bits := before + (kind + HeadBits(h)) + after;
    assert bits == before + kind + (a + b + c + s + p + after);
    FieldAt(before, 2, 2, a + b + c + s + p + after);
    assert bits == (before + kind) + a + (b + c + s + p + after);
    FieldAt(before + kind, |h.lit| - 257, 5, b + c + s + p + after);
    assert bits == (before + kind + a) + b + (c + s + p + after);
    FieldAt(before + kind + a, |h.dist| - 1, 5, c + s + p + after);
    assert bits == (before + kind + a + b) + c + (s + p + after);
    FieldAt(before + kind + a + b, |h.sent| - 4, 4, s + p + after);
    assert bits == (before + kind + a + b + c) + s + (p + after);
    SentLengths(before + kind + a + b + c, h, p + after);
  }

  /** A block, from the place `at` of the stream on. */
  ghost predicate ItemAt(bits: Bits, at: nat, it: Item) {
    && at + 3 <= |bits| && Field(bits, at, 1) == (if it.final then 1 else 0)
    && match it.form
       case Stored =>
         var p := (at + 3 + 7) / 8 * 8;
         && it.block.Raw? && Field(bits, at + 1, 2) == 0
         && p + 32 + 8 * |it.block.bytes| <= |bits| && StoredAt(bits[..p + 32 + 8 * |it.block.bytes|], p, it.block.bytes)
       case Static => Field(bits, at + 1, 2) == 1
       case Dynamic(h) => Field(bits, at + 1, 2) == 2 && HeadAt(bits, at + 1, h)
  }

  lemma ItemLaidOut(before: Bits, it: Item, after: Bits)
    requires Formed(it.form, it.block)
    ensures ItemAt(before + ItemBits(it, |before|) + after, |before|, it)
  {
    hide Low, Field, HeadBits, BodyBits, BytesBits, Padding, StoredAt, HeadAt, GoodHead, AllSendable, Pow2, BlockBits;
    var f := Low(if it.final then 1 else 0, 1);
    var body := BlockBits(it.form, it.block, |before| + 1);
    var bits := before + ItemBits(it, |before|) + after;
    BlockStart(it, |before|);
    FieldIn(before, ItemBits(it, |before|), after, 0, 1);
    FieldIn(before, ItemBits(it, |before|), after, 1, 2);
    match it.form
    case Stored =>
      StoredBits(before + f, it.block.bytes);
      assert before + f + body == before + ItemBits(it, |before|);
      assert bits[..|before + f + body|] == before + f + body;
      StoredLength(before + f + body, (|before| + 3 + 7) / 8 * 8, it.block.bytes);
    case Static =>
    case Dynamic(h) =>
      var rest := BodyBits(h.lit, h.dist, it.block.tokens) + after;
      HeadLaidOut(before + f, h, rest);
      DynamicBlock(h, it.block, |before| + 1);
      assert before + f + (Low(2, 2) + HeadBits(h)) + rest == bits;
  }

  lemma StoredLength(bits: Bits, p: nat, bytes: seq<Byte>)
    requires StoredAt(bits, p, bytes)
    ensures p + 32 + 8 * |bytes| == |bits|
  {
  }

  lemma DynamicBlock(h: Head, b: Block, at: nat)
    requires Formed(Dynamic(h), b)
    ensures BlockBits(Dynamic(h), b, at) == Low(2, 2) + HeadBits(h) + BodyBits(h.lit, h.dist, b.tokens)
  {
  }

  lemma {:induction false} StreamPrefix(items: seq<Item>, i: nat, n: nat) returns (rest: Bits)
    requires AllFormed(items) && i <= n <= |items|
    ensures StreamBits(items[..n], 0) == StreamBits(items[..i], 0) + rest
  {
    hide Formed, ItemBits, StreamBits;
    rest := [];
    if i < n {
      var r := StreamPrefix(items, i, n - 1);
      assert items[..n] == items[..n - 1] + [items[n - 1]];
      StreamAppend(items[..n - 1], items[n - 1], 0);
      var at := |StreamBits(items[..n - 1], 0)|;
      rest := r + ItemBits(items[n - 1], at);
      assert StreamBits(items[..i], 0) + r + ItemBits(items[n - 1], at) == StreamBits(items[..i], 0) + rest;
    }
  }

  /** Every block of a stream has its place behind the ones before it. */
  lemma StreamLaidOut(items: seq<Item>, i: nat, after: Bits)
    requires AllFormed(items) && i < |items|
    ensures ItemAt(StreamBits(items, 0) + after, |StreamBits(items[..i], 0)|, items[i])
  {
    hide Formed, ItemBits, StreamBits, ItemAt;
    var rest := StreamPrefix(items, i + 1, |items|);
    assert items[..|items|] == items && items[..i + 1] == items[..i] + [items[i]];
    StreamAppend(items[..i], items[i], 0);
    var before := StreamBits(items[..i], 0);
    ItemLaidOut(before, items[i], rest + after);
    assert before + ItemBits(items[i], |before|) + rest + after == before + ItemBits(items[i], |before|) + (rest + after);
  }

  // ----- Packed lengths -----

  /** A symbol of the packed lengths with `extra` bits of count and what it does. */
  ghost predicate RunOf(bl: Lengths, sym: nat, c: nat, extra: nat, rest: seq<nat>, out: seq<nat>, run: seq<nat>)
    requires Used(bl, sym) && AllPacked(bl, rest)
  {
    && AllPacked(bl, [sym, c] + rest)
    && (var bits := PackedBits(bl, [sym, c] + rest);
        && |bits| == bl[sym] + extra + |PackedBits(bl, rest)| && bits[..bl[sym]] == CodeWord(bl, sym)
        && Field(bits, bl[sym], extra) == c && bits[bl[sym] + extra..] == PackedBits(bl, rest))
    && CodeLengths.Meaning([sym, c] + rest, out) == CodeLengths.Meaning(rest, out + run)
  }

  /** 16: two bits, the length before three to six times. 17: three bits, three
      to ten zeros. 18: seven bits, 11 to 138 zeros. */
  lemma RunsAre(bl: Lengths, c: nat, rest: seq<nat>, out: seq<nat>)
    requires AllPacked(bl, rest)
    ensures Used(bl, 16) && c < 4 && out != [] ==> RunOf(bl, 16, c, 2, rest, out, seq(3 + c, _ => out[|out| - 1]))
    ensures Used(bl, 17) && c < 8 ==> RunOf(bl, 17, c, 3, rest, out, seq(3 + c, _ => 0))
    ensures Used(bl, 18) && c < 128 ==> RunOf(bl, 18, c, 7, rest, out, seq(11 + c, _ => 0))
  {
    hide RunOf;
    Widths();
    if Used(bl, 16) && c < 4 && out != [] { OneRun(bl, 16, c, 2, rest, out, seq(3 + c, _ => out[|out| - 1])); }
    if Used(bl, 17) && c < 8 { OneRun(bl, 17, c, 3, rest, out, seq(3 + c, _ => 0)); }
    if Used(bl, 18) && c < 128 { OneRun(bl, 18, c, 7, rest, out, seq(11 + c, _ => 0)); }
  }

  lemma OneRun(bl: Lengths, sym: nat, c: nat, extra: nat, rest: seq<nat>, out: seq<nat>, run: seq<nat>)
    requires AllPacked(bl, rest) && Used(bl, sym) && 16 <= sym <= 18 && c < CodeLengths.FieldLimit(sym) && (sym == 16 ==> out != [])
    requires extra == FieldBits(sym) && c < Pow2(extra) && |run| == CodeLengths.Base(sym) + c
    requires forall i :: 0 <= i < |run| ==> run[i] == if sym == 16 then out[|out| - 1] else 0
    ensures RunOf(bl, sym, c, extra, rest, out, run)
  {
    hide Field, Low, CodeWord;
    var packed := [sym, c] + rest;
    assert packed[2..] == rest;
    var w, x, r := CodeWord(bl, sym), Low(c, extra), PackedBits(bl, rest);
    assert PackedBits(bl, packed) == w + (x + r) == w + x + r;
    FieldAt(w, c, extra, r);
    CodeLengths.RunIs(run, if sym == 16 then out[|out| - 1] else 0);
  }

  /** Below 16 a symbol is a length. */
  lemma SizeIs(bl: Lengths, size: nat, rest: seq<nat>, out: seq<nat>)
    requires AllPacked(bl, rest) && size < 16 && Used(bl, size)
    ensures AllPacked(bl, [size] + rest) && PackedBits(bl, [size] + rest) == CodeWord(bl, size) + PackedBits(bl, rest)
    ensures CodeLengths.Meaning([size] + rest, out) == CodeLengths.Meaning(rest, out + [size])
  {
    assert ([size] + rest)[1..] == rest;
  }

  // ----- Codes -----

  /** The words of the fixed codes: section 3.2.6. */
  lemma StaticWords(s: nat)
    requires s < 288
    ensures var w := CodeWord(StaticLit(), s);
      && (s <= 143 ==> |w| == 8 && HighFirst(w, 0, 8) == 48 + s)
      && (144 <= s <= 255 ==> |w| == 9 && HighFirst(w, 0, 9) == 400 + (s - 144))
      && (256 <= s <= 279 ==> |w| == 7 && HighFirst(w, 0, 7) == s - 256)
      && (280 <= s ==> |w| == 8 && HighFirst(w, 0, 8) == 192 + (s - 280))
    ensures s < 32 ==> |CodeWord(StaticDist(), s)| == 5 && HighFirst(CodeWord(StaticDist(), s), 0, 5) == s
  {
    hide CodeWord, HighFirst, Num, Pow2;
    var lit, dist := StaticLit(), StaticDist();
    StaticFirst();
    StaticComplete();
    CompleteFits(lit);
    CompleteFits(dist);
    CodeFits(lit, s);
    CountStaticLit(lit[s], s);
    var w := CodeWord(lit, s);
    HighFirstNum(w, |w|);
    assert w[..|w|] == w;
    if s < 32 {
      CodeFits(dist, s);
      CountStaticDist(5, s);
      var v := CodeWord(dist, s);
      HighFirstNum(v, |v|);
      assert v[..|v|] == v;
    }
  }

  lemma StaticFirst()
    ensures First(StaticLit(), 7) == 0 && First(StaticLit(), 8) == 48 && First(StaticLit(), 9) == 400
    ensures First(StaticDist(), 5) == 0
  {
    var lit, dist := StaticLit(), StaticDist();
    forall l ensures Total(lit, l) == if l == 8 then 152 else if l == 9 then 112 else if l == 7 then 24 else 0 {
      CountStaticLit(l, 288);
    }
    FirstNone(lit, 7);
    forall l ensures Total(dist, l) == if l == 5 then 32 else 0 {
      CountStaticDist(l, 32);
    }
    FirstNone(dist, 5);
  }

  /** Words of equal length count up with their symbols, and from the last word
      of a length on to the first of the next one zeros are appended. */
  lemma WordsInOrder(lens: Lengths, s: nat, t: nat)
    requires Fits(lens) && Used(lens, s) && Used(lens, t)
    ensures lens[s] == lens[t] && s < t && (forall k :: s < k < t ==> lens[k] != lens[s]) ==>
              HighFirst(CodeWord(lens, t), 0, lens[t]) == HighFirst(CodeWord(lens, s), 0, lens[s]) + 1
    ensures lens[s] < lens[t] && (forall k :: 0 <= k < |lens| ==> !(lens[s] < lens[k] < lens[t]))
            && (forall k :: s < k < |lens| ==> lens[k] != lens[s]) && (forall k :: 0 <= k < t ==> lens[k] != lens[t]) ==>
              HighFirst(CodeWord(lens, t), 0, lens[t]) == Shl(HighFirst(CodeWord(lens, s), 0, lens[s]) + 1, lens[t] - lens[s])
    ensures (forall k :: 0 <= k < |lens| && k != s ==> lens[k] == 0 || lens[k] > lens[s] || (lens[k] == lens[s] && k > s)) ==>
              HighFirst(CodeWord(lens, s), 0, lens[s]) == 0
  {
    hide HighFirst, Fits, Num, Word, Shl;
    var v, w := CodeWord(lens, s), CodeWord(lens, t);
    CodeFits(lens, s);
    CodeFits(lens, t);
    HighFirstNum(v, |v|);
    HighFirstNum(w, |w|);
    assert v[..|v|] == v && w[..|w|] == w;
    if lens[s] == lens[t] && s < t && forall k :: s < k < t ==> lens[k] != lens[s] {
      CountSame(lens, lens[s], s + 1, t);
    } else if lens[s] < lens[t] && (forall k :: 0 <= k < |lens| ==> !(lens[s] < lens[k] < lens[t]))
      && (forall k :: s < k < |lens| ==> lens[k] != lens[s]) && (forall k :: 0 <= k < t ==> lens[k] != lens[t])
    {
      CountSame(lens, lens[s], s + 1, |lens|);
      CountSame(lens, lens[t], 0, t);
      FirstOn(lens, lens[s], lens[t]);
    }
    if forall k :: 0 <= k < |lens| && k != s ==> lens[k] == 0 || lens[k] > lens[s] || (lens[k] == lens[s] && k > s) {
      CountSame(lens, lens[s], 0, s);
      forall l | 1 <= l < lens[s]
        ensures Total(lens, l) == 0
      {
        CountSame(lens, l, 0, |lens|);
      }
      FirstNone(lens, lens[s]);
    }
  }

  lemma {:induction false} CountSame(lens: Lengths, l: nat, m: nat, n: nat)
    requires m <= n <= |lens| && forall k :: m <= k < n ==> lens[k] != l
    ensures Count(lens, l, n) == Count(lens, l, m)
  {
    if m < n { CountSame(lens, l, m, n - 1); }
  }

  lemma {:induction false} FirstOn(lens: Lengths, l: nat, m: nat)
    requires 1 <= l < m && forall k :: 0 <= k < |lens| ==> !(l < lens[k] < m)
    ensures First(lens, m) == Shl(First(lens, l) + Total(lens, l), m - l)
    decreases m
  {
    if m > l + 1 {
      CountSame(lens, m - 1, 0, |lens|);
      FirstOn(lens, l, m - 1);
    } else {
      assert Shl(First(lens, l) + Total(lens, l), 1) == 2 * (First(lens, l) + Total(lens, l)) by {
        assert Shl(First(lens, l) + Total(lens, l), 0) == First(lens, l) + Total(lens, l);
      }
    }
  }

  // ----- Lengths and distances -----

  /** The table of lengths: section 3.2.5. */
  lemma LengthRows(len: nat)
    requires 3 <= len <= 258
    ensures var s, e := LenSym(len - 3), LenExtra(len - 3);
      && (len <= 10 ==> s == 254 + len && e == 0)
      && (11 <= len <= 18 ==> s == 265 + (len - 11) / 2 && e == 1)
      && (19 <= len <= 34 ==> s == 269 + (len - 19) / 4 && e == 2)
      && (35 <= len <= 66 ==> s == 273 + (len - 35) / 8 && e == 3)
      && (67 <= len <= 130 ==> s == 277 + (len - 67) / 16 && e == 4)
      && (131 <= len <= 257 ==> s == 281 + (len - 131) / 32 && e == 5)
      && (len == 258 ==> s == 285 && e == 0)
  {
    hide LenSym, LenExtra;
    LenTables(len - 3);
  }

  /** The table of distances. */
  lemma DistanceRows(d: nat)
    requires 1 <= d <= 32768
    ensures var s, e := DistSym(d - 1), DistExtra(d - 1);
      && (d <= 4 ==> s == d - 1 && e == 0)
      && (5 <= d <= 8 ==> s == 4 + (d - 5) / 2 && e == 1)
      && (9 <= d <= 16 ==> s == 6 + (d - 9) / 4 && e == 2)
      && (17 <= d <= 32 ==> s == 8 + (d - 17) / 8 && e == 3)
      && (33 <= d <= 64 ==> s == 10 + (d - 33) / 16 && e == 4)
      && (65 <= d <= 128 ==> s == 12 + (d - 65) / 32 && e == 5)
      && (129 <= d <= 256 ==> s == 14 + (d - 129) / 64 && e == 6)
      && (257 <= d <= 512 ==> s == 16 + (d - 257) / 128 && e == 7)
      && (513 <= d <= 1024 ==> s == 18 + (d - 513) / 256 && e == 8)
      && (1025 <= d <= 2048 ==> s == 20 + (d - 1025) / 512 && e == 9)
      && (2049 <= d <= 4096 ==> s == 22 + (d - 2049) / 1024 && e == 10)
      && (4097 <= d <= 8192 ==> s == 24 + (d - 4097) / 2048 && e == 11)
      && (8193 <= d <= 16384 ==> s == 26 + (d - 8193) / 4096 && e == 12)
      && (16385 <= d ==> s == 28 + (d - 16385) / 8192 && e == 13)
  {
    hide DistSym, DistExtra;
    if d <= 512 { SmallDistances(d); } else { LargeDistances(d); }
  }

  lemma SmallDistances(d: nat)
    requires 1 <= d <= 512
    ensures var s, e := DistSym(d - 1), DistExtra(d - 1);
      if d <= 4 then s == d - 1 && e == 0
      else if d <= 8 then s == 4 + (d - 5) / 2 && e == 1
      else if d <= 16 then s == 6 + (d - 9) / 4 && e == 2
      else if d <= 32 then s == 8 + (d - 17) / 8 && e == 3
      else if d <= 64 then s == 10 + (d - 33) / 16 && e == 4
      else if d <= 128 then s == 12 + (d - 65) / 32 && e == 5
      else if d <= 256 then s == 14 + (d - 129) / 64 && e == 6
      else s == 16 + (d - 257) / 128 && e == 7
  {
    hide DistSym, DistExtra;
    SmallDistTables(d - 1);
  }

  lemma LargeDistances(d: nat)
    requires 513 <= d <= 32768
    ensures var s, e := DistSym(d - 1), DistExtra(d - 1);
      if d <= 1024 then s == 18 + (d - 513) / 256 && e == 8
      else if d <= 2048 then s == 20 + (d - 1025) / 512 && e == 9
      else if d <= 4096 then s == 22 + (d - 2049) / 1024 && e == 10
      else if d <= 8192 then s == 24 + (d - 4097) / 2048 && e == 11
      else if d <= 16384 then s == 26 + (d - 8193) / 4096 && e == 12
      else s == 28 + (d - 16385) / 8192 && e == 13
  {
    hide DistSym, DistExtra;
    LargeDistTables(d - 1);
  }

  /** A match: the word for its length, the extra bits, the word for its
      distance, and its extra bits. */
  lemma MatchBits(lit: Lengths, dist: Lengths, len: nat, d: nat)
    requires 3 <= len <= 258 && 1 <= d <= 32768 && Sendable(lit, dist, LzTokens.Match(len, d))
    ensures var s, e, t, f := LenSym(len - 3), LenExtra(len - 3), DistSym(d - 1), DistExtra(d - 1);
      var bits, k, m := LzBits(lit, dist, LzTokens.Match(len, d)), lit[s] + e, lit[s] + e + dist[t];
      && |bits| == m + f && bits[..lit[s]] == CodeWord(lit, s) && Field(bits, lit[s], e) == (len - 3) % Pow2(e)
      && bits[k..m] == CodeWord(dist, t) && Field(bits, m, f) == (d - 1) % Pow2(f)
  {
    hide LenSym, LenExtra, DistSym, DistExtra, CodeWord, Field, Low, Pow2;
    var s, e, t, f := LenSym(len - 3), LenExtra(len - 3), DistSym(d - 1), DistExtra(d - 1);
    var v, w := CodeWord(lit, s), CodeWord(dist, t);
    LowOf(len - 3, e);
    LowOf(d - 1, f);
    TwoFields(v, (len - 3) % Pow2(e), e, w, (d - 1) % Pow2(f), f);
  }

  lemma TwoFields(v: Bits, x: nat, e: nat, w: Bits, y: nat, f: nat)
    requires x < Pow2(e) && y < Pow2(f)
    ensures var bits, k := v + (Low(x, e) + (w + Low(y, f))), |v| + e;
      && |bits| == k + |w| + f && bits[..|v|] == v && Field(bits, |v|, e) == x
      && bits[k..k + |w|] == w && Field(bits, k + |w|, f) == y
  {
    hide Low, Field, Pow2;
    var bits := v + (Low(x, e) + (w + Low(y, f)));
    assert bits == v + Low(x, e) + (w + Low(y, f)) && bits == (v + Low(x, e) + w) + Low(y, f) + [];
    FieldAt(v, x, e, w + Low(y, f));
    FieldAt(v + Low(x, e) + w, y, f, []);
  }

  lemma LowOf(v: nat, n: nat)
    ensures Low(v % Pow2(n), n) == Low(v, n)
  {
    ValLowMod(v, n);
    LowVal(Low(v, n));
  }
}
