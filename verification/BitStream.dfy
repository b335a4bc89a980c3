/** The bits of a DEFLATE stream, lowest bit of each byte first: the
    compressor's bit buffer and what the decompressor has before it. */
module BitStream {
  import opened HuffmanCode
  import LzTokens
  import opened HuffmanTree
  import opened HuffmanTables

  type Byte = LzTokens.Byte

  function BytesBits(s: seq<Byte>): (w: Bits)
    ensures |w| == 8 * |s|
  {
    if s == [] then [] else Low(s[0] as nat, 8) + BytesBits(s[1..])
  }

  lemma {:induction false} BytesBitsAppend(s: seq<Byte>, t: seq<Byte>)
    ensures BytesBits(s + t) == BytesBits(s) + BytesBits(t)
  {
    if s == [] {
      assert s + t == t;
    } else {
      assert (s + t)[1..] == s[1..] + t;
      BytesBitsAppend(s[1..], t);
    }
  }

  /** Putting bits above those that are there. */
  lemma {:induction false} LowJoin(a: nat, b: nat, m: nat, n: nat)
    requires a < Pow2(m)
    ensures Low(a + Shl(b, m), m + n) == Low(a, m) + Low(b, n)
    ensures b < Pow2(n) ==> a + Shl(b, m) < Pow2(m + n)
  {
    if m > 0 {
      LowJoin(a / 2, b, m - 1, n);
      assert (a + Shl(b, m)) / 2 == a / 2 + Shl(b, m - 1) && (a + Shl(b, m)) % 2 == a % 2;
    }
  }

  /** A whole byte leaves the buffer at its lower end. */
  lemma ByteOut(n: nat, k: nat)
    requires n < Pow2(k) && k >= 8
    ensures Low(n, k) == Low(n % 256, 8) + Low(n / 256, k - 8)
    ensures n / 256 < Pow2(k - 8)
  {
    hide Low, Val, Pow2, Div2;
    EightBits(n);
    LowPrefix(n, k, 8);
    LowDrop(n, k, 8);
    assert Low(n, k) == Low(n, k)[..8] + Low(n, k)[8..];
    ValLowMod(n, 8);
    LowVal(Low(n, 8));
    ValLow(n, k);
    ValDrop(Low(n, k), 8);
  }

  lemma ZeroLow()
    ensures forall n :: Low(n, 0) == []
  {
  }

  /** The compressor's bit buffer and output. */
  class BitWriter {
    var bytes: seq<Byte>
    var buffer: nat  // m_bit_buffer
    var used: nat    // m_bits_in

    ghost predicate Valid()
      reads this
    {
      used < 8 && buffer < Pow2(used)
    }

    ghost function Contents(): Bits
      reads this
    {
      BytesBits(bytes) + Low(buffer, used)
    }

    constructor ()
      ensures Valid() && Contents() == [] && bytes == []
    {
      bytes, buffer, used := [], 0, 0;
    }

    /** TDEFL_PUT_BITS */
    method Put(v: nat, n: nat)
      requires Valid() && v < Pow2(n)
      modifies this
      ensures Valid() && Contents() == old(Contents()) + Low(v, n)
    {
      hide Low, Pow2, BytesBits, Shl;
      LowJoin(buffer, v, used, n);
      buffer := buffer + Shl(v, used);
      used := used + n;
      assert Contents() == old(Contents()) + Low(v, n);
      while used >= 8
        invariant buffer < Pow2(used) && Contents() == old(Contents()) + Low(v, n)
      {
        EmitByte();
      }
    }

    method EmitByte()
      requires used >= 8 && buffer < Pow2(used)
      modifies this
      ensures buffer < Pow2(used) && used == old(used) - 8 && Contents() == old(Contents())
    {
      hide Low, Pow2;
      ByteOut(buffer, used);
      BytesBitsAppend(bytes, [(buffer % 256) as Byte]);
      assert BytesBits([(buffer % 256) as Byte]) == Low(buffer % 256, 8);
      bytes := bytes + [(buffer % 256) as Byte];
      buffer := buffer / 256;
      used := used - 8;
    }

    /** Zeros up to the end of a byte. */
    method Align()
      requires Valid()
      modifies this
      ensures Valid() && used == 0 && |Contents()| % 8 == 0
      ensures Contents() == old(Contents()) + Padding(|old(Contents())|)
    {
      hide Low, BytesBits;
      PaddingIs(|bytes|, used);
      if used > 0 {
        Put(0, 8 - used);
      } else {
        assert Contents() + [] == Contents();
      }
      ZeroLow();
    }
  }

  /** The zeros between `at` bits and the end of the byte. */
  function Padding(at: nat): Bits { Low(0, (8 - at % 8) % 8) }

  lemma PaddingIs(n: nat, used: nat)
    requires used < 8
    ensures Padding(8 * n + used) == if used == 0 then [] else Low(0, 8 - used)
    ensures Pow2(8 - used) > 0
  {
    assert (8 * n + used) % 8 == used;
  }

  lemma PaddingLeft(at: nat, left: nat)
    requires (at + left) % 8 == 0
    ensures |Padding(at)| == left % 8
  {
    hide Low;
    RestOfByte(at, left);
  }

  lemma RestOfByte(at: nat, left: nat)
    requires (at + left) % 8 == 0
    ensures (8 - at % 8) % 8 == left % 8
  {
    var r, s := at % 8, left % 8;
    assert at == 8 * (at / 8) + r && left == 8 * (left / 8) + s;
    assert r + s == 0 || r + s == 8;
  }

  /** What the decompressor has not read yet. */
  class BitReader {
    var bits: nat
    var left: nat

    ghost function Rest(): Bits
      reads this
    {
      Low(bits, left)
    }

    constructor (src: seq<Byte>)
      ensures Rest() == BytesBits(src)
    {
      bits, left := Val(BytesBits(src)), 8 * |src|;
      LowVal(BytesBits(src));
    }

    /** TINFL_GET_BITS */
    method Take(n: nat, ghost field: Bits, ghost after: Bits) returns (v: nat)
      requires |field| == n && Rest() == field + after
      modifies this
      ensures v == Val(field) && Rest() == after
    {
      hide Low, Val, Div2, Pow2;
      TakeBits(bits, left, field, after);
      v := bits % Pow2(n);
      bits := Div2(bits, n);
      left := left - n;
    }

    /** TINFL_SKIP_BITS up to the end of a byte. */
    method SkipToByte(ghost at: nat, ghost after: Bits)
      requires (at + left) % 8 == 0 && Rest() == Padding(at) + after
      modifies this
      ensures Rest() == after
    {
      hide Low, Padding;
      PaddingLeft(at, left);
      var v := Take(left % 8, Padding(at), after);
    }

    /** TINFL_HUFF_DECODE */
    method TakeSymbol(t: Tables, ghost s: nat, ghost after: Bits) returns (sym: nat)
      requires t.Valid() && t.done == |t.lens| && Used(t.lens, s) && Rest() == CodeWord(t.lens, s) + after
      modifies this
      ensures sym == s && Rest() == after
    {
      hide Low, Val, Div2, Pow2, CodeWord, Trie, Buildable;
      ghost var w := CodeWord(t.lens, s);
      SymbolReads(t.lens, s, bits, left, after);
      TakeBits(bits, left, w, after);
      assert exists s: nat :: Reads(t.lens, s, bits);
      var size;
      sym, size := t.Decode(bits);
      ReadsOnce(t.lens, sym, s, bits);
      bits := Div2(bits, size);
      left := left - size;
    }
  }

  lemma TakeBits(bits: nat, left: nat, w: Bits, after: Bits)
    requires Low(bits, left) == w + after
    ensures bits % Pow2(|w|) == Val(w) && |w| <= left && Low(Div2(bits, |w|), left - |w|) == after
  {
    hide Low, Val, Pow2;
    LowPrefix(bits, left, |w|);
    LowDrop(bits, left, |w|);
    ValLowMod(bits, |w|);
  }

  lemma SymbolReads(lens: Lengths, s: nat, bits: nat, left: nat, after: Bits)
    requires Used(lens, s) && Low(bits, left) == CodeWord(lens, s) + after
    ensures Reads(lens, s, bits)
  {
    hide Low, CodeWord;
    var w := CodeWord(lens, s);
    LowPrefix(bits, left, |w|);
    LowPrefix(bits, MAX_BITS, |w|);
  }
}
