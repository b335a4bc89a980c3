/** The part of the A64 instruction set that the block rewriter knows, and what
    its instructions do. Masks and shifts are quotients and remainders. */
module Aarch64 {
  newtype Byte = x: int | 0 <= x < 256

  const W: nat := 0x1_0000_0000
  const X: nat := 0x1_0000_0000_0000_0000

  type Word = w: nat | w < W
  type Dword = x: nat | x < X

  /** x0 to x30; register 31 reads as zero and takes no value. */
  type Regs = r: seq<Dword> | |r| == 31 witness seq(31, _ => 0)

  type Mem = nat -> Byte

  function Set(r: Regs, d: nat, x: Dword): Regs { if d < 31 then r[d := x] else r }

  function Get(r: Regs, d: nat): Dword { if d < 31 then r[d] else 0 }

  predicate IsAdr(w: Word) { w / 0x8000_0000 == 0 && w / 0x100_0000 % 32 == 16 }

  predicate IsAdrp(w: Word) { w / 0x8000_0000 == 1 && w / 0x100_0000 % 32 == 16 }

  predicate IsLdrLiteral(w: Word) { w / 0x8000_0000 == 0 && w / 0x100_0000 % 64 == 24 }

  predicate IsBr(w: Word) { w / 1024 == 0x35_87c0 && w % 32 == 0 }

  function Rd(w: Word): nat { w % 32 }

  function Rn(w: Word): nat { w / 32 % 32 }

  /** The 21 bits of ADR and ADRP. */
  function AdrImm(w: Word): (i: nat)
    ensures i < 0x20_0000
  {
    w / 0x2000_0000 % 4 + 4 * (w / 32 % 0x8_0000)
  }

  function LdrImm(w: Word): (i: nat)
    ensures i < 0x8_0000
  {
    w / 32 % 0x8_0000
  }

  /** Whether a literal load is of 64 bits. */
  predicate LdrWide(w: Word) { w / 0x4000_0000 % 2 == 1 }

  function LdrSize(w: Word): nat { if LdrWide(w) then 8 else 4 }

  /** Two's complement of `n` bits. */
  function Signed(i: nat, half: nat): int { if i < half then i else i - 2 * half }

  function Wrap(x: int): (d: Dword) { x % X }

  /** Little-endian reading. */
  function ReadLE(mem: Mem, at: nat, n: nat): nat
    decreases n
  {
    if n == 0 then 0 else mem(at) as nat + 256 * ReadLE(mem, at + 1, n - 1)
  }

  /** What the other instructions do, which do not depend on where they stand. */
  datatype Cpu = Cpu(sem: (Word, Regs, Mem) -> (Regs, Mem))

  datatype State = State(regs: Regs, mem: Mem, pc: nat)

  function AdrTarget(w: Word, pc: nat): Dword { Wrap(pc + Signed(AdrImm(w), 0x10_0000)) }

  function AdrpTarget(w: Word, pc: nat): Dword { Wrap(pc - pc % 4096 + 4096 * Signed(AdrImm(w), 0x10_0000)) }

  function LdrAddress(w: Word, pc: nat): Dword { Wrap(pc + 4 * Signed(LdrImm(w), 0x4_0000)) }

  /** The value a literal load takes from memory. */
  function Literal(w: Word, mem: Mem, at: nat): (x: Dword)
  {
    ReadLE(mem, at, LdrSize(w)) % X
  }

  /** One instruction: sections C6.2.11, C6.2.12 and the literal loads and
      branches of the A-profile manual. */
  function Step(cpu: Cpu, w: Word, s: State): State {
    if IsAdr(w) then State(Set(s.regs, Rd(w), AdrTarget(w, s.pc)), s.mem, s.pc + 4)
    else if IsAdrp(w) then State(Set(s.regs, Rd(w), AdrpTarget(w, s.pc)), s.mem, s.pc + 4)
    else if IsLdrLiteral(w) then
      State(Set(s.regs, Rd(w), Literal(w, s.mem, LdrAddress(w, s.pc))), s.mem, s.pc + 4)
    else if IsBr(w) then State(s.regs, s.mem, Get(s.regs, Rn(w)))
    else
      var (regs, mem) := cpu.sem(w, s.regs, s.mem);
      State(regs, mem, s.pc + 4)
  }

  /** The first `n` instructions of a block without branches, one after the other. */
  function Run(cpu: Cpu, block: seq<Word>, n: nat, s: State): State
    requires n <= |block|
  {
    if n == 0 then s else Step(cpu, block[n - 1], Run(cpu, block, n - 1, s))
  }

  lemma LdrFields(x: nat, imm: nat, rt: nat)
    requires rt < 32 && x <= 1 && imm < 0x8_0000
    ensures var w := rt + 32 * imm + 0x1800_0000 + 0x4000_0000 * x;
            && w < W && w / 0x8000_0000 == 0 && w / 0x100_0000 % 64 == 24 && w / 0x4000_0000 % 2 == x
            && w % 32 == rt && w / 32 % 0x8_0000 == imm && w / 0x100_0000 % 32 == 24
  {
    var w := rt + 32 * imm + 0x1800_0000 + 0x4000_0000 * x;
    assert w / 32 == imm + 0xc0_0000 + 0x200_0000 * x;
    assert w / 0x100_0000 == 24 + 64 * x;
  }

  /** MAKE_AARCH64_LDR_LITERAL */
  function MakeLdrLiteral(wide: bool, imm: nat, rt: nat): (w: Word)
    requires rt < 32
    ensures IsLdrLiteral(w) && !IsAdr(w) && !IsAdrp(w)
    ensures Rd(w) == rt && LdrImm(w) == imm % 0x8_0000 && LdrWide(w) == wide
  {
    LdrFields(if wide then 1 else 0, imm % 0x8_0000, rt);
    rt + 32 * (imm % 0x8_0000) + 0x1800_0000 + 0x4000_0000 * (if wide then 1 else 0)
  }

  /** MAKE_AARCH64_BR */
  function MakeBr(rn: nat): (w: Word)
    requires rn < 32
    ensures IsBr(w) && !IsAdr(w) && !IsAdrp(w) && !IsLdrLiteral(w) && Rn(w) == rn
  {
    32 * rn + 0xd61f_0000
  }

  /** LH_SEXT64: ones above the sign bit, or the number as it is. */
  function SignExtend(i: nat, half: nat): nat
    requires i < 2 * half <= X
  {
    if i / half == 1 then X - half + i % half else i
  }

  lemma SignExtends(i: nat, half: nat)
    requires 0 < half && i < 2 * half <= X
    ensures SignExtend(i, half) == Signed(i, half) % X
  {
    if i >= half {
      assert i / half == 1 && i % half == i - half;
    } else {
      assert i / half == 0;
    }
  }
}
