/** The Adler-32 checksum with deferred reduction: section 9 of RFC 1950. */
module Adler {
  newtype Byte = x: int | 0 <= x < 256

  newtype U32 = x: int | 0 <= x < 0x1_0000_0000

  const BASE: nat := 65521
  const BLOCK: nat := 5552

  /** The two sums of the standard, reduced at every byte. */
  function Sums(s1: nat, s2: nat, bytes: seq<Byte>): (r: (nat, nat)) {
    if bytes == [] then (s1, s2)
    else
      var (a, b) := Sums(s1, s2, bytes[..|bytes| - 1]);
      var a' := (a + bytes[|bytes| - 1] as nat) % BASE;
      (a', (b + a') % BASE)
  }

  /** The same sums without reduction. */
  function Raw(s1: nat, s2: nat, bytes: seq<Byte>): (r: (nat, nat)) {
    if bytes == [] then (s1, s2)
    else
      var (a, b) := Raw(s1, s2, bytes[..|bytes| - 1]);
      var a' := a + bytes[|bytes| - 1] as nat;
      (a', b + a')
  }

  /** What the second sum can come to after `n` bytes. */
  function Most(n: nat): nat { if n == 0 then 65520 else Most(n - 1) + 65520 + 255 * n }

  lemma {:induction false} MostIs(n: nat)
    ensures 2 * Most(n) == 131040 + 131040 * n + 255 * (n * n + n)
  {
    if n > 0 { MostIs(n - 1); }
  }

  lemma {:induction false} MostGrows(n: nat, m: nat)
    requires n <= m
    ensures Most(n) <= Most(m)
    decreases m
  {
    if n < m { MostGrows(n, m - 1); }
  }

  /** 5552 bytes are the most that cannot overflow 32 bits. */
  lemma BlockFits(n: nat)
    requires n <= BLOCK
    ensures Most(n) < 0x1_0000_0000 <= Most(BLOCK + 1)
  {
    MostGrows(n, BLOCK);
    MostIs(BLOCK);
    MostIs(BLOCK + 1);
  }

  lemma {:induction false} RawBound(s1: nat, s2: nat, bytes: seq<Byte>)
    requires s1 < BASE && s2 < BASE
    ensures Raw(s1, s2, bytes).0 <= 65520 + 255 * |bytes| && Raw(s1, s2, bytes).1 <= Most(|bytes|)
  {
    if bytes != [] { RawBound(s1, s2, bytes[..|bytes| - 1]); }
  }

  /** Reduction can wait. */
  lemma {:induction false} RawReduces(s1: nat, s2: nat, bytes: seq<Byte>)
    requires s1 < BASE && s2 < BASE
    ensures Sums(s1, s2, bytes) == (Raw(s1, s2, bytes).0 % BASE, Raw(s1, s2, bytes).1 % BASE)
  {
    if bytes != [] {
      var front := bytes[..|bytes| - 1];
      RawReduces(s1, s2, front);
      var (a, b) := Raw(s1, s2, front);
      ModAdd(a, bytes[|bytes| - 1] as nat);
      ModAdd(b, a + bytes[|bytes| - 1] as nat);
      ModAdd(a + bytes[|bytes| - 1] as nat, b % BASE);
    }
  }

  lemma ModAdd(a: nat, x: nat)
    ensures (a % BASE + x) % BASE == (a + x) % BASE
  {
    assert a + x == BASE * (a / BASE) + (a % BASE + x);
  }

  /** A checksum goes on where another ended. */
  lemma {:induction false} SumsAppend(s1: nat, s2: nat, x: seq<Byte>, y: seq<Byte>)
    ensures Sums(s1, s2, x + y) == Sums(Sums(s1, s2, x).0, Sums(s1, s2, x).1, y)
  {
    if y == [] {
      assert x + y == x;
    } else {
      assert (x + y)[..|x + y| - 1] == x + y[..|y| - 1];
      SumsAppend(s1, s2, x, y[..|y| - 1]);
    }
  }

  /** The first `k` bytes added up. */
  function Plain(bytes: seq<Byte>, k: nat): nat
    requires k <= |bytes|
  {
    if k == 0 then 0 else Plain(bytes, k - 1) + bytes[k - 1] as nat
  }

  /** The first `k` bytes added up, the first of them `n` times, the next once less. */
  function Weighted(bytes: seq<Byte>, n: nat, k: nat): nat
    requires k <= |bytes| && k <= n
  {
    if k == 0 then 0 else Weighted(bytes, n, k - 1) + (n - (k - 1)) * bytes[k - 1] as nat
  }

  lemma {:induction false} WeightedMore(bytes: seq<Byte>, n: nat, k: nat)
    requires k <= |bytes| && k <= n
    ensures Weighted(bytes, n + 1, k) == Weighted(bytes, n, k) + Plain(bytes, k)
  {
    if k > 0 {
      WeightedMore(bytes, n, k - 1);
      var b := bytes[k - 1] as nat;
      assert (n + 1 - (k - 1)) * b == (n - (k - 1)) * b + b;
    }
  }

  lemma {:induction false} RawClosed(s1: nat, s2: nat, bytes: seq<Byte>, k: nat)
    requires k <= |bytes|
    ensures Raw(s1, s2, bytes[..k]) == (s1 + Plain(bytes, k), s2 + k * s1 + Weighted(bytes, k, k))
  {
    hide Raw, Weighted, Plain;
    ClosedNone(bytes);
    if k == 0 {
      RawNone(s1, s2, bytes);
    } else {
      RawClosed(s1, s2, bytes, k - 1);
      RawNext(s1, s2, bytes, k - 1);
      WeightedStep(bytes, k);
      OnceMore(k, s1);
    }
  }

  lemma ClosedNone(bytes: seq<Byte>)
    ensures Plain(bytes, 0) == 0 && Weighted(bytes, 0, 0) == 0
  {
  }

  lemma WeightedStep(bytes: seq<Byte>, k: nat)
    requires 0 < k <= |bytes|
    ensures Weighted(bytes, k, k) == Weighted(bytes, k - 1, k - 1) + Plain(bytes, k)
    ensures Plain(bytes, k) == Plain(bytes, k - 1) + bytes[k - 1] as nat
  {
    WeightedMore(bytes, k - 1, k - 1);
  }

  lemma OnceMore(k: nat, s: nat)
    requires k > 0
    ensures k * s == (k - 1) * s + s
  {
  }

  /** The checksum in closed form, 65521 being the largest prime below 65536. */
  function Formula(adler: nat, bytes: seq<Byte>): nat {
    var n, a, b := |bytes|, adler % 65536, adler / 65536;
    (b + n * a + Weighted(bytes, n, n)) % 65521 * 65536 + (a + Plain(bytes, n)) % 65521
  }

  lemma ChecksumClosed(adler: nat, bytes: seq<Byte>)
    requires Reduced(adler)
    ensures Checksum(adler, bytes) == Formula(adler, bytes)
  {
    hide Raw, Sums;
    RawReduces(adler % 65536, adler / 65536, bytes);
    RawClosed(adler % 65536, adler / 65536, bytes, |bytes|);
    assert bytes[..|bytes|] == bytes;
  }

  function Packed(s: (nat, nat)): nat { s.1 * 65536 + s.0 }

  /** The checksum of the standard, from a checksum before. */
  function Checksum(adler: nat, bytes: seq<Byte>): nat {
    Packed(Sums(adler % 65536, adler / 65536, bytes))
  }

  lemma SumsReduced(s1: nat, s2: nat, bytes: seq<Byte>)
    requires s1 < BASE && s2 < BASE
    ensures Sums(s1, s2, bytes).0 < BASE && Sums(s1, s2, bytes).1 < BASE
  {
  }

  predicate Reduced(adler: nat) { adler % 65536 < BASE && adler / 65536 < BASE }

  /** The checksum of two buffers one behind the other. */
  lemma ChecksumAppend(adler: nat, x: seq<Byte>, y: seq<Byte>)
    requires Reduced(adler)
    ensures Checksum(adler, x + y) == Checksum(Checksum(adler, x), y) && Reduced(Checksum(adler, x))
  {
    SumsAppend(adler % 65536, adler / 65536, x, y);
    SumsReduced(adler % 65536, adler / 65536, x);
  }

  lemma RawNext(s1: nat, s2: nat, bytes: seq<Byte>, k: nat)
    requires k < |bytes|
    ensures var (a, b) := Raw(s1, s2, bytes[..k]); var a' := a + bytes[k] as nat;
            Raw(s1, s2, bytes[..k + 1]) == (a', b + a')
  {
    assert bytes[..k + 1][..k] == bytes[..k];
  }

  /** One byte, in 32 bits. */
  method Add(s1: U32, s2: U32, bytes: seq<Byte>, k: nat, ghost r1: nat, ghost r2: nat) returns (t1: U32, t2: U32)
    requires k < |bytes| <= BLOCK && r1 < BASE && r2 < BASE && Raw(r1, r2, bytes[..k]) == (s1 as nat, s2 as nat)
    ensures Raw(r1, r2, bytes[..k + 1]) == (t1 as nat, t2 as nat)
  {
    RawNext(r1, r2, bytes, k);
    RawBound(r1, r2, bytes[..k + 1]);
    BlockFits(k + 1);
    t1 := s1 + bytes[k] as U32;
    t2 := s2 + t1;
  }

  /** The sums of a block, eight bytes at a time and then one by one. */
  method SumBlock(r1: U32, r2: U32, bytes: seq<Byte>) returns (s1: U32, s2: U32)
    requires |bytes| <= BLOCK && r1 as nat < BASE && r2 as nat < BASE
    ensures Sums(r1 as nat, r2 as nat, bytes) == (s1 as nat, s2 as nat)
  {
    hide Raw, Sums;
    ghost var a, b := r1 as nat, r2 as nat;
    s1, s2 := r1, r2;
    var i := 0;
    RawNone(a, b, bytes);
    while i + 7 < |bytes|
      invariant 0 <= i <= |bytes| && Raw(a, b, bytes[..i]) == (s1 as nat, s2 as nat)
    {
      s1, s2 := Add(s1, s2, bytes, i, a, b);
      s1, s2 := Add(s1, s2, bytes, i + 1, a, b);
      s1, s2 := Add(s1, s2, bytes, i + 2, a, b);
      s1, s2 := Add(s1, s2, bytes, i + 3, a, b);
      s1, s2 := Add(s1, s2, bytes, i + 4, a, b);
      s1, s2 := Add(s1, s2, bytes, i + 5, a, b);
      s1, s2 := Add(s1, s2, bytes, i + 6, a, b);
      s1, s2 := Add(s1, s2, bytes, i + 7, a, b);
      i := i + 8;
    }
    while i < |bytes|
      invariant 0 <= i <= |bytes| && Raw(a, b, bytes[..i]) == (s1 as nat, s2 as nat)
    {
      s1, s2 := Add(s1, s2, bytes, i, a, b);
      i := i + 1;
    }
    assert bytes[..i] == bytes;
    RawReduces(a, b, bytes);
    s1, s2 := s1 % 65521, s2 % 65521;
  }

  lemma RawNone(a: nat, b: nat, bytes: seq<Byte>)
    ensures Raw(a, b, bytes[..0]) == (a, b)
  {
  }

  /** mz_adler32. The first block may be empty, the others are full. */
  method Adler32(adler: nat, bytes: seq<Byte>) returns (r: nat)
    requires Reduced(adler)
    ensures r == Checksum(adler, bytes)
    ensures r == Formula(adler, bytes)
  {
    hide Sums, Formula;
    ChecksumClosed(adler, bytes);
    var s1, s2 := (adler % 65536) as U32, (adler / 65536) as U32;
    ghost var a, b := adler % 65536, adler / 65536;
    var left, block, at := |bytes|, |bytes| % BLOCK, 0;
    SumsNone(a, b, bytes);
    while left > 0
      invariant 0 <= at <= |bytes| && left == |bytes| - at
      invariant (block == BLOCK && left % BLOCK == 0) || (at == 0 && block == left % BLOCK)
      invariant s1 as nat < BASE && s2 as nat < BASE && Sums(a, b, bytes[..at]) == (s1 as nat, s2 as nat)
      decreases left, if block == BLOCK then 0 else 1
    {
      SumsAppend(a, b, bytes[..at], bytes[at..at + block]);
      assert bytes[..at] + bytes[at..at + block] == bytes[..at + block];
      SumsReduced(a, b, bytes[..at + block]);
      s1, s2 := SumBlock(s1, s2, bytes[at..at + block]);
      at := at + block;
      left := left - block;
      block := BLOCK;
    }
    assert bytes[..at] == bytes;
    r := s2 as nat * 65536 + s1 as nat;
  }

  lemma SumsNone(a: nat, b: nat, bytes: seq<Byte>)
    ensures Sums(a, b, bytes[..0]) == (a, b)
  {
  }
}
