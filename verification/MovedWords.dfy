/** The block rewriter and the processor on words given by their fields, in the
    numbers of the architecture. */
module MovedWords {
  import opened Aarch64
  import opened BlockRewriter

  /** Four bytes of a number, the lowest first. */
  predicate FourAt(b: seq<Byte>, k: nat, v: nat) {
    && k + 4 <= |b|
    && b[k] as nat == v % 0x100 && b[k + 1] as nat == v / 0x100 % 0x100
    && b[k + 2] as nat == v / 0x1_0000 % 0x100 && b[k + 3] as nat == v / 0x100_0000 % 0x100
  }

  predicate EightAt(b: seq<Byte>, k: nat, v: nat) { FourAt(b, k, v) && FourAt(b, k + 4, v / 0x1_0000_0000) }

  lemma FourBytes(x: nat, n: nat)
    requires n >= 4
    ensures FourAt(Bytes(x, n), 0, x) && Bytes(x, n)[4..] == Bytes(x / 0x1_0000_0000, n - 4)
  {
    var x1 := x / 256;
    var x2 := x1 / 256;
    var x3 := x2 / 256;
    assert x2 == x / 0x1_0000 && x3 == x / 0x100_0000 && x3 / 256 == x / 0x1_0000_0000;
    assert Bytes(x, n) == [(x % 256) as Byte] + Bytes(x1, n - 1);
    assert Bytes(x1, n - 1) == [(x1 % 256) as Byte] + Bytes(x2, n - 2);
    assert Bytes(x2, n - 2) == [(x2 % 256) as Byte] + Bytes(x3, n - 3);
    assert Bytes(x3, n - 3) == [(x3 % 256) as Byte] + Bytes(x3 / 256, n - 4);
  }

  lemma EightBytes(x: nat)
    ensures EightAt(Bytes(x, 8), 0, x)
  {
    hide Bytes;
    FourBytes(x, 8);
    FourBytes(x / 0x1_0000_0000, 4);
    assert forall j :: 0 <= j < 4 ==> Bytes(x, 8)[4..][j] == Bytes(x, 8)[4 + j];
  }

  lemma EightIn(b: seq<Byte>, k: nat, x: nat)
    requires k + 8 <= |b| && b[k..k + 8] == Bytes(x, 8)
    ensures EightAt(b, k, x)
  {
    hide Bytes;
    EightBytes(x);
    var c := b[k..k + 8];
    assert c[0] == b[k] && c[1] == b[k + 1] && c[2] == b[k + 2] && c[3] == b[k + 3];
    assert c[4] == b[k + 4] && c[5] == b[k + 5] && c[6] == b[k + 6] && c[7] == b[k + 7];
  }

  lemma FourIn(b: seq<Byte>, k: nat, x: nat)
    requires k + 4 <= |b| && b[k..k + 4] == Bytes(x, 4)
    ensures FourAt(b, k, x)
  {
    hide Bytes;
    FourBytes(x, 4);
    var c := b[k..k + 4];
    assert c[0] == b[k] && c[1] == b[k + 1] && c[2] == b[k + 2] && c[3] == b[k + 3];
  }

  /** The fields of ADR (`page` 0) and ADRP (`page` 1). */
  lemma AdrFields(rd: nat, off: int, page: nat)
    requires rd < 32 && -0x10_0000 <= off < 0x10_0000 && page <= 1
    ensures var imm := off % 0x20_0000;
      var w := rd + 32 * (imm / 4) + 0x1000_0000 + 0x2000_0000 * (imm % 4) + 0x8000_0000 * page;
      && w < W && Rd(w) == rd && (IsAdr(w) <==> page == 0) && (IsAdrp(w) <==> page == 1) && !IsLdrLiteral(w)
      && Signed(AdrImm(w), 0x10_0000) == off
  {
    var imm := off % 0x20_0000;
    var w := rd + 32 * (imm / 4) + 0x1000_0000 + 0x2000_0000 * (imm % 4) + 0x8000_0000 * page;
    assert w / 32 == imm / 4 + 0x80_0000 + 0x100_0000 * (imm % 4) + 0x400_0000 * page;
    assert w / 0x100_0000 == 16 + 32 * (imm % 4) + 128 * page;
    assert w / 0x2000_0000 == imm % 4 + 4 * page;
    assert w / 0x8000_0000 == page;
    assert AdrImm(w) == imm;
    assert imm == if off < 0 then off + 0x20_0000 else off;
  }

  lemma LiteralFields(rt: nat, off: int, x: nat)
    requires rt < 32 && -0x4_0000 <= off < 0x4_0000 && x <= 1
    ensures var w := rt + 32 * (off % 0x8_0000) + 0x1800_0000 + 0x4000_0000 * x;
      && w < W && Rd(w) == rt && IsLdrLiteral(w) && !IsAdr(w) && !IsAdrp(w) && LdrSize(w) == 4 + 4 * x
      && Signed(LdrImm(w), 0x4_0000) == off
  {
    var imm := off % 0x8_0000;
    LdrFields(x, imm, rt);
    assert imm == if off < 0 then off + 0x8_0000 else off;
  }

  /** What the processor does with the two words that make an address. */
  lemma AdrDoes(cpu: Cpu, rd: nat, off: int, s: State)
    requires rd < 31 && -0x10_0000 <= off < 0x10_0000
    ensures var imm := off % 0x20_0000;
      var w := rd + 32 * (imm / 4) + 0x1000_0000 + 0x2000_0000 * (imm % 4);
      && Step(cpu, w, s) == State(s.regs[rd := (s.pc + off) % 0x1_0000_0000_0000_0000], s.mem, s.pc + 4)
      && Step(cpu, w + 0x8000_0000, s)
         == State(s.regs[rd := (s.pc - s.pc % 4096 + 4096 * off) % 0x1_0000_0000_0000_0000], s.mem, s.pc + 4)
  {
    hide IsAdr, IsAdrp, AdrImm, Rd, Signed;
    AdrFields(rd, off, 0);
    AdrFields(rd, off, 1);
  }

  lemma {:induction false} BytesOfRead(mem: Mem, at: nat, n: nat)
    ensures Holds(mem, at, Bytes(ReadLE(mem, at, n), n))
    decreases n
  {
    if n > 0 {
      BytesOfRead(mem, at + 1, n - 1);
      var v := ReadLE(mem, at, n);
      assert v % 256 == mem(at) as nat && v / 256 == ReadLE(mem, at + 1, n - 1);
      forall k | at <= k < at + n
        ensures Bytes(v, n)[k - at] == mem(k)
      {
        if k > at { assert Bytes(v, n)[k - at] == Bytes(v / 256, n - 1)[k - (at + 1)]; }
      }
    }
  }

  /** A literal is a number of its size, made of the bytes in memory. */
  lemma LiteralBytes(w: Word, mem: Mem, at: nat)
    ensures Holds(mem, at, Bytes(Literal(w, mem, at), LdrSize(w))) && (!LdrWide(w) ==> Literal(w, mem, at) < 0x1_0000_0000)
  {
    hide Bytes, Holds, LdrWide;
    Powers();
    ReadBound(mem, at, LdrSize(w));
    BytesOfRead(mem, at, LdrSize(w));
  }

  /** A literal load takes the bytes that are `off` words further on. */
  lemma LoadDoes(cpu: Cpu, rt: nat, off: int, x: nat, s: State)
    requires rt < 31 && -0x4_0000 <= off < 0x4_0000 && x <= 1
    ensures var w := rt + 32 * (off % 0x8_0000) + 0x1800_0000 + 0x4000_0000 * x;
      var s' := Step(cpu, w, s);
      && s' == State(s.regs[rt := s'.regs[rt]], s.mem, s.pc + 4)
      && Holds(s.mem, (s.pc + 4 * off) % 0x1_0000_0000_0000_0000, Bytes(s'.regs[rt], 4 + 4 * x))
      && (x == 0 ==> s'.regs[rt] < 0x1_0000_0000)
  {
    hide IsLdrLiteral, IsAdr, IsAdrp, Rd, LdrImm, Signed, Bytes, Literal, Holds;
    LiteralFields(rt, off, x);
    var w: Word := rt + 32 * (off % 0x8_0000) + 0x1800_0000 + 0x4000_0000 * x;
    LiteralBytes(w, s.mem, LdrAddress(w, s.pc));
  }

  /** A branch goes where its register says. */
  lemma BranchDoes(cpu: Cpu, rn: nat, s: State)
    requires rn < 31
    ensures Step(cpu, 0xd61f_0000 + 32 * rn, s) == State(s.regs, s.mem, s.regs[rn])
  {
    hide IsLdrLiteral, IsAdr, IsAdrp, IsBr, Rn;
    BranchFields(rn);
  }

  lemma BranchFields(rn: nat)
    requires rn < 32
    ensures var w := 0xd61f_0000 + 32 * rn;
      w < W && IsBr(w) && !IsAdr(w) && !IsAdrp(w) && !IsLdrLiteral(w) && Rn(w) == rn
  {
    var r: Word := MakeBr(rn);
    assert r == 0xd61f_0000 + 32 * rn;
  }

  /** Instruction `i` of the new block: a load, into register `rd`, of what is
      at place `k` of the block. */
  predicate LoadsFrom(b: seq<Byte>, i: nat, rd: nat, wide: nat, k: nat) {
    k >= 4 * i && (k - 4 * i) % 4 == 0 && FourAt(b, 4 * i, rd + 8 * (k - 4 * i) + 0x1800_0000 + 0x4000_0000 * wide)
  }

  /** An instruction that makes an address becomes a load of that address. */
  lemma AdrMoved(block: seq<Word>, from: nat, mem: Mem, i: nat, rd: nat, off: int, page: nat)
    requires FitsStreams(block, from, mem) && i < |block|
    requires rd < 32 && -0x10_0000 <= off < 0x10_0000 && page <= 1
    requires var imm := off % 0x20_0000;
      block[i] == rd + 32 * (imm / 4) + 0x1000_0000 + 0x2000_0000 * (imm % 4) + 0x8000_0000 * page
    ensures var b, k, pc := NewBlock(block, from, mem), 4 * (|block| + 2) + |Pool(block, from, mem, i)|, from + 4 * i;
      var to := if page == 0 then pc + off else pc - pc % 4096 + 4096 * off;
      LoadsFrom(b, i, rd, 1, k) && EightAt(b, k, to % 0x1_0000_0000_0000_0000)
  {
    hide IsAdr, IsAdrp, IsLdrLiteral, AdrImm, Rd, Signed, NewBlock, Pool, Bytes, FourAt, EightAt, FitsStreams;
    AdrFields(rd, off, page);
    NewPool(block, from, mem, i);
    WordMoved(block, from, mem, i);
    var b, k := NewBlock(block, from, mem), 4 * i + Distance(block, from, mem, i);
    EightIn(b, k, PoolValue(block[i], mem, from + 4 * i, i));
  }

  lemma WordMoved(block: seq<Word>, from: nat, mem: Mem, i: nat)
    requires FitsStreams(block, from, mem) && i < |block| && Pooled(block[i])
    ensures var b, k, w := NewBlock(block, from, mem), 4 * (|block| + 2) + |Pool(block, from, mem, i)|, block[i];
      k == 4 * i + Distance(block, from, mem, i) && LoadsFrom(b, i, Rd(w), if PoolSize(w) == 8 then 1 else 0, k)
  {
    hide NewBlock, Pool, Bytes, FourAt, Pooled, PoolSize;
    NewWord(block, from, mem, i);
    DistanceFits(block, from, mem, i);
    var wide, d := PoolSize(block[i]) == 8, Distance(block, from, mem, i);
    LoadWord(wide, d / 4, Rd(block[i]));
    FourIn(NewBlock(block, from, mem), 4 * i, Moved(block, from, mem, i));
  }

  lemma LoadWord(wide: bool, imm: nat, rt: nat)
    requires rt < 32 && imm < 0x8_0000
    ensures MakeLdrLiteral(wide, imm, rt) == rt + 32 * imm + 0x1800_0000 + 0x4000_0000 * (if wide then 1 else 0)
  {
  }

  /** A literal load is moved with the bytes that are as many literals beyond
      its own as there are instructions before it. */
  lemma LoadMoved(block: seq<Word>, from: nat, mem: Mem, i: nat, rt: nat, off: int, x: nat)
    requires FitsStreams(block, from, mem) && i < |block|
    requires rt < 32 && -0x4_0000 <= off < 0x4_0000 && x <= 1
    requires block[i] == rt + 32 * (off % 0x8_0000) + 0x1800_0000 + 0x4000_0000 * x
    ensures var b, k, n := NewBlock(block, from, mem), 4 * (|block| + 2) + |Pool(block, from, mem, i)|, 4 + 4 * x;
      var at := (from + 4 * i + 4 * off) % 0x1_0000_0000_0000_0000;
      LoadsFrom(b, i, rt, x, k) && k + n <= |b| && Holds(mem, at + (if x == 0 then 4 * i else 8 * i), b[k..k + n])
  {
    hide IsLdrLiteral, IsAdr, IsAdrp, LdrWide, LdrImm, LdrSize, LdrAddress, Rd, Signed, NewBlock, Pool, PoolValue, PoolSize,
      Pooled, Bytes, LoadsFrom, FitsStreams, Holds, Literal, Distance;
    LiteralFields(rt, off, x);
    var w := block[i];
    LiteralPooled(w, off, x, mem, from + 4 * i, i);
    NewPool(block, from, mem, i);
    WordMoved(block, from, mem, i);
    LiteralBytes(w, mem, (from + 4 * i + 4 * off) % 0x1_0000_0000_0000_0000 + if x == 0 then 4 * i else 8 * i);
  }

  lemma LiteralPooled(w: Word, off: int, x: nat, mem: Mem, pc: nat, i: nat)
    requires IsLdrLiteral(w) && !IsAdr(w) && !IsAdrp(w) && LdrSize(w) == 4 + 4 * x && x <= 1 && Signed(LdrImm(w), 0x4_0000) == off
    ensures Pooled(w) && PoolSize(w) == 4 + 4 * x
    ensures PoolValue(w, mem, pc, i) == Literal(w, mem, (pc + 4 * off) % 0x1_0000_0000_0000_0000 + if x == 0 then 4 * i else 8 * i)
  {
    hide Literal, Signed, LdrImm, IsLdrLiteral, IsAdr, IsAdrp;
  }

  /** Every other instruction stays as it is. */
  lemma OtherMoved(block: seq<Word>, from: nat, mem: Mem, i: nat)
    requires i < |block| && block[i] / 0x100_0000 % 32 != 16
    requires block[i] / 0x100_0000 != 0x18 && block[i] / 0x100_0000 != 0x58
    ensures FourAt(NewBlock(block, from, mem), 4 * i, block[i])
  {
    hide NewBlock, Bytes, FourAt;
    NewWord(block, from, mem, i);
    FourIn(NewBlock(block, from, mem), 4 * i, block[i]);
  }

  /** The pool has its literals one behind the other. */
  lemma {:induction false} PoolPlace(block: seq<Word>, from: nat, mem: Mem, i: nat)
    requires i < |block|
    ensures |Pool(block, from, mem, 0)| == 0
    ensures var w := block[i] / 0x100_0000;
      |Pool(block, from, mem, i + 1)| - |Pool(block, from, mem, i)|
      == if w % 32 == 16 || w == 0x58 then 8 else if w == 0x18 then 4 else 0
  {
    hide PoolValue;
    var w: Word := block[i];
    assert w / 0x8000_0000 == w / 0x100_0000 / 128;
    assert w / 0x4000_0000 == w / 0x100_0000 / 64;
  }

  /** The end of the new block: a load of the old block's end into x16, the
      branch there, and, behind the pool, that address. */
  lemma EndMoved(block: seq<Word>, from: nat, mem: Mem)
    requires FitsStreams(block, from, mem) && from + 4 * |block| < 0x1_0000_0000_0000_0000
    ensures var b, n := NewBlock(block, from, mem), |block|;
      var k := 4 * (n + 2) + |Pool(block, from, mem, n)|;
      && LoadsFrom(b, n, 16, 1, k) && FourAt(b, 4 * n + 4, 0xd61f_0200)
      && |b| == k + 8 && EightAt(b, k, from + 4 * n)
  {
    hide NewBlock, Pool, Bytes, FourAt, EightAt;
    var b, n, dist := NewBlock(block, from, mem), |block|, Distance(block, from, mem, |block|);
    NewTail(block, from, mem);
    DistanceFits(block, from, mem, n);
    LoadWord(true, dist / 4, 16);
    FourIn(b, 4 * n, JumpLoad(block, from, mem));
    FourIn(b, 4 * n + 4, MakeBr(16));
    EightIn(b, 4 * n + dist, from + 4 * n);
  }

  /** The sixteen bytes put over a hooked function. */
  lemma LongJumpBytes(target: Dword)
    ensures var b := LongJump(target);
      |b| == 16 && b[..8] == [0x50, 0, 0, 0x58, 0, 0x02, 0x1f, 0xd6] && EightAt(b, 8, target)
  {
    hide Bytes, EightAt;
    LoadWord(true, 2, 16);
    var l, r, t := Bytes(MakeLdrLiteral(true, 2, 16), 4), Bytes(MakeBr(16), 4), Bytes(target, 8);
    FourBytes(MakeLdrLiteral(true, 2, 16), 4);
    FourBytes(MakeBr(16), 4);
    assert LongJump(target)[8..16] == t;
    EightIn(LongJump(target), 8, target);
    assert l == [0x50, 0, 0, 0x58] && r == [0, 0x02, 0x1f, 0xd6];
  }
}
