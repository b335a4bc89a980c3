/** Moving a block of code: what depends on the place of an instruction becomes
    a load from a pool of literals behind the new code. */
module BlockRewriter {
  import opened Aarch64

  const STREAM_SIZE: nat := 256  // LH_STREAM_MAX_SIZE

  /** `n` bytes of a number, the lowest first. */
  function Bytes(x: nat, n: nat): (b: seq<Byte>)
    ensures |b| == n
    decreases n
  {
    if n == 0 then [] else [(x % 256) as Byte] + Bytes(x / 256, n - 1)
  }

  function Power256(n: nat): (p: nat)
    ensures p > 0
  {
    if n == 0 then 1 else 256 * Power256(n - 1)
  }

  /** The memory from `at` on holds these bytes. */
  ghost predicate Holds(mem: Mem, at: nat, b: seq<Byte>) {
    forall i :: at <= i < at + |b| ==> mem(i) == b[i - at]
  }

  lemma {:induction false} BytesRead(mem: Mem, at: nat, x: nat, n: nat)
    requires Holds(mem, at, Bytes(x, n)) && x < Power256(n)
    ensures ReadLE(mem, at, n) == x
    decreases n
  {
    if n > 0 {
      var b := Bytes(x, n);
      assert b[0] == (x % 256) as Byte && b[1..] == Bytes(x / 256, n - 1);
      assert mem(at) == b[0];
      assert Holds(mem, at + 1, Bytes(x / 256, n - 1)) by {
        assert forall i :: at + 1 <= i < at + n ==> mem(i) == b[i - at] && b[i - at] == b[1..][i - at - 1];
      }
      BytesRead(mem, at + 1, x / 256, n - 1);
    }
  }

  /** The value that goes to the pool for an instruction, if it needs one. */
  predicate Pooled(w: Word) { IsAdr(w) || IsAdrp(w) || IsLdrLiteral(w) }

  function PoolSize(w: Word): nat { if !Pooled(w) then 0 else if IsLdrLiteral(w) && !LdrWide(w) then 4 else 8 }

  /** What is read in place of the literal of instruction `i`: the address is
      counted on by `i` words. */
  function LiteralRead(w: Word, mem: Mem, pc: nat, i: nat): Dword {
    Literal(w, mem, LdrAddress(w, pc) + i * LdrSize(w))
  }

  function PoolValue(w: Word, mem: Mem, pc: nat, i: nat): Dword {
    if IsAdr(w) then AdrTarget(w, pc)
    else if IsAdrp(w) then AdrpTarget(w, pc)
    else LiteralRead(w, mem, pc, i)
  }

  /** The pool of the first `n` instructions of a block at `from`. */
  function Pool(block: seq<Word>, from: nat, mem: Mem, n: nat): seq<Byte>
    requires n <= |block|
  {
    if n == 0 then []
    else
      var w := block[n - 1];
      Pool(block, from, mem, n - 1) +
        if Pooled(w) then Bytes(PoolValue(w, mem, from + 4 * (n - 1), n - 1), PoolSize(w)) else []
  }

  /** The distance from instruction `i` of the new code to its place in the pool. */
  function Distance(block: seq<Word>, from: nat, mem: Mem, i: nat): nat
    requires i <= |block|
  {
    4 * (|block| + 2) - 4 * i + |Pool(block, from, mem, i)|
  }

  /** Instruction `i` of the new code. */
  function Moved(block: seq<Word>, from: nat, mem: Mem, i: nat): Word
    requires i < |block|
  {
    var w := block[i];
    if Pooled(w) then MakeLdrLiteral(PoolSize(w) == 8, Distance(block, from, mem, i) / 4, Rd(w)) else w
  }

  /** Everything fits into the two streams. */
  predicate FitsStreams(block: seq<Word>, from: nat, mem: Mem) {
    4 * (|block| + 2) <= STREAM_SIZE && |Pool(block, from, mem, |block|)| + 8 <= STREAM_SIZE
  }

  lemma {:induction false} PoolGrows(block: seq<Word>, from: nat, mem: Mem, i: nat, n: nat)
    requires i <= n <= |block|
    ensures Pool(block, from, mem, i) <= Pool(block, from, mem, n)
    decreases n
  {
    if i < n { PoolGrows(block, from, mem, i, n - 1); }
  }

  lemma {:induction false} PoolAligned(block: seq<Word>, from: nat, mem: Mem, n: nat)
    requires n <= |block|
    ensures |Pool(block, from, mem, n)| % 4 == 0 && |Pool(block, from, mem, n)| <= 8 * n
  {
    hide Pool, PoolSize;
    if n == 0 { PoolNone(block, from, mem); }
    if n > 0 {
      PoolAligned(block, from, mem, n - 1);
      PoolStep(block, from, mem, n - 1);
    }
  }

  lemma PoolNone(block: seq<Word>, from: nat, mem: Mem)
    ensures Pool(block, from, mem, 0) == []
  {
  }

  lemma PoolStep(block: seq<Word>, from: nat, mem: Mem, i: nat)
    requires i < |block|
    ensures |Pool(block, from, mem, i + 1)| == |Pool(block, from, mem, i)| + PoolSize(block[i])
    ensures PoolSize(block[i]) == 0 || PoolSize(block[i]) == 4 || PoolSize(block[i]) == 8
  {
    hide IsAdr, IsAdrp, IsLdrLiteral, LdrWide, PoolValue;
  }

  lemma DistanceFits(block: seq<Word>, from: nat, mem: Mem, i: nat)
    requires i <= |block| && |block| <= 62
    ensures Distance(block, from, mem, i) / 4 < 0x4_0000 && Distance(block, from, mem, i) % 4 == 0
  {
    PoolAligned(block, from, mem, i);
  }

  /** The code of the first `n` instructions. */
  function NewCode(block: seq<Word>, from: nat, mem: Mem, n: nat): (c: seq<Byte>)
    requires n <= |block|
    ensures |c| == 4 * n
  {
    if n == 0 then []
    else
      NewCode(block, from, mem, n - 1) + Bytes(Moved(block, from, mem, n - 1), 4)
  }

  /** The jump back behind it. */
  function JumpLoad(block: seq<Word>, from: nat, mem: Mem): Word
  {
    MakeLdrLiteral(true, Distance(block, from, mem, |block|) / 4, 16)
  }

  function NewBlock(block: seq<Word>, from: nat, mem: Mem): seq<Byte>
  {
    NewCode(block, from, mem, |block|) + Bytes(JumpLoad(block, from, mem), 4) + Bytes(MakeBr(16), 4)
      + Pool(block, from, mem, |block|) + Bytes(Wrap(from + 4 * |block|), 8)
  }

  /** A buffer of fixed size; what does not fit is dropped. */
  class Stream {
    const data: array<Byte>
    var head: nat

    ghost predicate Valid()
      reads this
    {
      data.Length == STREAM_SIZE && head <= STREAM_SIZE
    }

    constructor ()
      ensures Valid() && head == 0 && fresh(data)
    {
      data := new Byte[STREAM_SIZE](_ => 0);
      head := 0;
    }

    method Write(b: seq<Byte>)
      requires Valid()
      modifies this, data
      ensures Valid()
      ensures if old(head) + |b| <= STREAM_SIZE then data[..head] == old(data[..head]) + b
              else head == old(head) && data[..] == old(data[..])
    {
      if head + |b| > STREAM_SIZE {
        return;
      }
      var i := 0;
      while i < |b|
        invariant 0 <= i <= |b| && head == old(head)
        invariant data[..head + i] == old(data[..head]) + b[..i]
      {
        data[head + i] := b[i];
        assert data[..head + i + 1] == data[..head + i] + [b[i]];
        i := i + 1;
      }
      assert b[..i] == b;
      head := head + |b|;
    }
  }

  /** Code `c` and pool `d` are in the streams, or something was dropped. */
  ghost predicate Streamed(code: Stream, data: Stream, c: seq<Byte>, d: seq<Byte>)
    reads code, code.data, data, data.data
  {
    && code.Valid() && data.Valid() && code.data != data.data && code != data
    && code.head <= |c| && data.head <= |d|
    && if |c| <= STREAM_SIZE && |d| <= STREAM_SIZE then code.data[..code.head] == c && data.data[..data.head] == d
       else code.head + data.head < |c| + |d|
  }

  /** A word of code and the bytes it brings to the pool. */
  method Emit(code: Stream, data: Stream, w: Word, b: seq<Byte>, ghost c: seq<Byte>, ghost d: seq<Byte>)
    requires Streamed(code, data, c, d)
    modifies code, code.data, data, data.data
    ensures Streamed(code, data, c + Bytes(w, 4), d + b)
  {
    code.Write(Bytes(w, 4));
    data.Write(b);
  }

  /** Once something was dropped, only how much there should be matters. */
  lemma StreamedLength(code: Stream, data: Stream, c: seq<Byte>, d: seq<Byte>, c': seq<Byte>, d': seq<Byte>)
    requires Streamed(code, data, c, d) && |c| == |c'| && |d| == |d'|
    requires |c| <= STREAM_SIZE && |d| <= STREAM_SIZE ==> c == c' && d == d'
    ensures Streamed(code, data, c', d')
  {
  }

  /** LH_INS_OFFSET: from the next instruction to the next place in the pool. */
  function Offset(size: nat, code: nat, data: nat): int { 4 * (size + 2) - code + data }

  lemma AddWrapped(a: int, s: int)
    ensures Wrap(a + Wrap(s)) == Wrap(a + s)
  {
    assert s == X * (s / X) + Wrap(s);
    WrapPeriod(a + Wrap(s), s / X);
  }

  lemma WrapPeriod(a: int, k: int)
    ensures Wrap(a) == Wrap(a + X * k)
  {
  }

  lemma TimesWrapped(k: nat, s: int)
    ensures Wrap(k * Wrap(s)) == Wrap(k * s)
  {
    assert s == X * (s / X) + Wrap(s);
    assert k * s == k * Wrap(s) + X * (k * (s / X));
    WrapPeriod(k * Wrap(s), k * (s / X));
  }

  /** What an instruction at `pc` brings to the pool. */
  method PoolData(w: Word, mem: Mem, pc: nat, i: nat) returns (value: Dword, size: nat)
    ensures size == PoolSize(w) && (Pooled(w) ==> value == PoolValue(w, mem, pc, i))
  {
    hide IsAdr, IsAdrp, IsLdrLiteral, LdrWide, AdrImm, LdrImm, Literal, SignExtend, Signed, Wrap;
    value, size := 0, 0;
    OneKind(w);
    if IsAdr(w) {
      var imm := SignExtend(AdrImm(w), 0x10_0000);
      SignExtended(AdrImm(w), 0x10_0000);
      AddWrapped(pc, Signed(AdrImm(w), 0x10_0000));
      value, size := Wrap(pc + imm), 8;
    } else if IsAdrp(w) {
      var imm := Wrap(4096 * SignExtend(AdrImm(w), 0x10_0000));
      SignExtended(AdrImm(w), 0x10_0000);
      TimesWrapped(4096, Signed(AdrImm(w), 0x10_0000));
      var page := pc - pc % 4096;
      AddWrapped(page, 4096 * Signed(AdrImm(w), 0x10_0000));
      value, size := Wrap(page + imm), 8;
    } else if IsLdrLiteral(w) {
      var imm := Wrap(4 * SignExtend(LdrImm(w), 0x4_0000));
      SignExtended(LdrImm(w), 0x4_0000);
      TimesWrapped(4, Signed(LdrImm(w), 0x4_0000));
      AddWrapped(pc, 4 * Signed(LdrImm(w), 0x4_0000));
      size := LdrSize(w);
      value := Literal(w, mem, Wrap(pc + imm) + i * size);
    }
  }

  lemma OneKind(w: Word)
    ensures IsAdr(w) || IsAdrp(w) ==> !IsLdrLiteral(w)
  {
  }

  lemma SignExtended(i: nat, half: nat)
    requires 0 < half && i < 2 * half <= X
    ensures SignExtend(i, half) == Wrap(Signed(i, half))
  {
    SignExtends(i, half);
  }

  lemma CodeStep(block: seq<Word>, from: nat, mem: Mem, i: nat)
    requires i < |block|
    ensures NewCode(block, from, mem, i + 1) == NewCode(block, from, mem, i) + Bytes(Moved(block, from, mem, i), 4)
    ensures var w := block[i];
            Pool(block, from, mem, i + 1) == Pool(block, from, mem, i)
              + Bytes(if Pooled(w) then PoolValue(w, mem, from + 4 * i, i) else 0, PoolSize(w))
  {
  }

  /** One instruction of the block. */
  method RewriteOne(code: Stream, data: Stream, block: seq<Word>, i: nat, from: nat, mem: Mem)
    requires i < |block|
    requires Streamed(code, data, NewCode(block, from, mem, i), Pool(block, from, mem, i))
    modifies code, code.data, data, data.data
    ensures Streamed(code, data, NewCode(block, from, mem, i + 1), Pool(block, from, mem, i + 1))
  {
    hide Bytes, IsAdr, IsAdrp, IsLdrLiteral, LdrWide, NewCode, Pool, PoolValue, Pooled, MakeLdrLiteral;
    var w := block[i];
    ghost var c, d := NewCode(block, from, mem, i), Pool(block, from, mem, i);
    CodeStep(block, from, mem, i);
    var offset := Offset(|block|, code.head, data.head);
    var value, size := PoolData(w, mem, from + 4 * i, i);
    PoolStep(block, from, mem, i);
    var word := w;
    if size > 0 {
      word := MakeLdrLiteral(size == 8, offset / 4, Rd(w));
    }
    PooledSize(w);
    Emit(code, data, word, Bytes(value, size), c, d);
    StreamedLength(code, data, c + Bytes(word, 4), d + Bytes(value, size),
                   NewCode(block, from, mem, i + 1), Pool(block, from, mem, i + 1));
  }

  lemma PooledSize(w: Word)
    ensures Pooled(w) <==> PoolSize(w) > 0
  {
  }

  /** LHRewriteAArch64Block: the bytes of the new block, when the old one stands at `from`. */
  method Rewrite(block: seq<Word>, from: nat, mem: Mem) returns (bytes: seq<Byte>)
    ensures FitsStreams(block, from, mem) ==> bytes == NewBlock(block, from, mem)
    ensures !FitsStreams(block, from, mem) ==> |bytes| < |NewBlock(block, from, mem)|
  {
    hide Bytes, NewCode, Pool, MakeLdrLiteral, MakeBr, Wrap;
    var code := new Stream();
    var data := new Stream();
    NothingYet(block, from, mem);
    var i := 0;
    while i < |block|
      invariant 0 <= i <= |block| && fresh(code) && fresh(code.data) && fresh(data) && fresh(data.data)
      invariant Streamed(code, data, NewCode(block, from, mem, i), Pool(block, from, mem, i))
    {
      RewriteOne(code, data, block, i, from, mem);
      i := i + 1;
    }
    JumpBack(code, data, block, from, mem);
    bytes := code.data[..code.head] + data.data[..data.head];
  }

  /** The two instructions and the address at the end of the new block. */
  method JumpBack(code: Stream, data: Stream, block: seq<Word>, from: nat, ghost mem: Mem)
    requires Streamed(code, data, NewCode(block, from, mem, |block|), Pool(block, from, mem, |block|))
    modifies code, code.data, data, data.data
    ensures Streamed(code, data, NewCode(block, from, mem, |block|) + Bytes(JumpLoad(block, from, mem), 4) + Bytes(MakeBr(16), 4),
                     Pool(block, from, mem, |block|) + Bytes(Wrap(from + 4 * |block|), 8))
  {
    hide Bytes, NewCode, Pool, MakeLdrLiteral, MakeBr, Wrap;
    ghost var n := |block|;
    ghost var c, d, j := NewCode(block, from, mem, n), Pool(block, from, mem, n), JumpLoad(block, from, mem);
    var jump := MakeLdrLiteral(true, Offset(|block|, code.head, data.head) / 4, 16);
    assert d + [] == d;
    Emit(code, data, jump, [], c, d);
    StreamedLength(code, data, c + Bytes(jump, 4), d, c + Bytes(j, 4), d);
    Emit(code, data, MakeBr(16), Bytes(Wrap(from + 4 * |block|), 8), c + Bytes(j, 4), d);
  }

  lemma NothingYet(block: seq<Word>, from: nat, mem: Mem)
    ensures NewCode(block, from, mem, 0) == [] && Pool(block, from, mem, 0) == []
  {
  }

  /** Blocks whose other instructions neither branch nor depend on their place. */
  ghost predicate Straight(block: seq<Word>) {
    forall i :: 0 <= i < |block| ==> !IsBr(block[i])
  }

  /** The old block run where it stood, and the new one at `to`, keep in step up
      to instruction `i`; and the new block is still in memory. */
  ghost predicate InStep(old': State, new': State, b: seq<Byte>, from: nat, to: nat, i: nat) {
    && new'.regs == old'.regs && new'.mem == old'.mem
    && old'.pc == from + 4 * i && new'.pc == to + 4 * i
    && Holds(new'.mem, to, b)
  }

  /** Word `i` of the code in memory. */
  function Fetch(mem: Mem, at: nat): Word { ReadLE(mem, at, 4) % W }

  lemma {:induction false} CodeAt(block: seq<Word>, from: nat, mem: Mem, i: nat, n: nat)
    requires i < n <= |block|
    ensures NewCode(block, from, mem, n)[4 * i..4 * i + 4] == Bytes(Moved(block, from, mem, i), 4)
    decreases n
  {
    hide Moved, Bytes;
    var c, d := NewCode(block, from, mem, n - 1), Bytes(Moved(block, from, mem, n - 1), 4);
    if i < n - 1 {
      CodeAt(block, from, mem, i, n - 1);
      assert (c + d)[4 * i..4 * i + 4] == c[4 * i..4 * i + 4];
    } else {
      assert (c + d)[4 * i..4 * i + 4] == d;
    }
  }

  lemma {:induction false} PoolAt(block: seq<Word>, from: nat, mem: Mem, i: nat, n: nat)
    requires i < n <= |block|
    ensures var d := |Pool(block, from, mem, i)|; var w := block[i];
            d + PoolSize(w) <= |Pool(block, from, mem, n)|
            && Pool(block, from, mem, n)[d..d + PoolSize(w)]
               == Bytes(if Pooled(w) then PoolValue(w, mem, from + 4 * i, i) else 0, PoolSize(w))
  {
    hide Pool, PoolSize, PoolValue, Pooled, Bytes;
    CodeStep(block, from, mem, i);
    PoolGrows(block, from, mem, i + 1, n);
    var a, b := Pool(block, from, mem, i + 1), Pool(block, from, mem, n);
    assert b[..|a|] == a;
  }

  /** Running from memory. */
  function Go(cpu: Cpu, s: State): State { Step(cpu, Fetch(s.mem, s.pc), s) }

  function GoOn(cpu: Cpu, n: nat, s: State): State {
    if n == 0 then s else Go(cpu, GoOn(cpu, n - 1, s))
  }

  lemma {:induction false} ReadBound(mem: Mem, at: nat, n: nat)
    ensures ReadLE(mem, at, n) < Power256(n)
    decreases n
  {
    if n > 0 { ReadBound(mem, at + 1, n - 1); }
  }

  lemma Powers()
    ensures Power256(4) == W && Power256(8) == X
  {
    assert Power256(2) == 65536;
    assert Power256(6) == 65536 * Power256(4);
  }

  /** A word of the new block is what is fetched there. */
  lemma FetchAt(mem: Mem, to: nat, b: seq<Byte>, k: nat, w: Word)
    requires Holds(mem, to, b) && k + 4 <= |b| && b[k..k + 4] == Bytes(w, 4)
    ensures Fetch(mem, to + k) == w
  {
    Powers();
    HoldsSlice(mem, to, b, k, 4);
    BytesRead(mem, to + k, w, 4);
  }

  lemma HoldsSlice(mem: Mem, to: nat, b: seq<Byte>, k: nat, n: nat)
    requires Holds(mem, to, b) && k + n <= |b|
    ensures Holds(mem, to + k, b[k..k + n])
  {
    forall i | to + k <= i < to + k + n
      ensures mem(i) == b[k..k + n][i - to - k]
    {
      assert mem(i) == b[i - to];
    }
  }

  /** What a load from the new code's pool gives. */
  lemma PoolLoad(mem: Mem, to: nat, b: seq<Byte>, at: nat, dist: nat, w: Word, x: Dword)
    requires Holds(mem, to, b) && to + |b| <= X && at + dist + LdrSize(w) <= |b|
    requires dist % 4 == 0 && dist / 4 < 0x4_0000 && LdrImm(w) == dist / 4
    requires b[at + dist..at + dist + LdrSize(w)] == Bytes(x, LdrSize(w)) && x < Power256(LdrSize(w))
    ensures Literal(w, mem, LdrAddress(w, to + at)) == x
  {
    hide LdrImm, Bytes, LdrWide;
    assert LdrAddress(w, to + at) == to + at + dist;
    HoldsSlice(mem, to, b, at + dist, LdrSize(w));
    BytesRead(mem, to + at + dist, x, LdrSize(w));
  }

  /** The literal captured when the block was moved is the one the old code
      would have loaded, or the load has no effect. */
  predicate LiteralSame(w: Word, mem0: Mem, mem: Mem, pc: nat, i: nat) {
    IsLdrLiteral(w) ==> Rd(w) == 31 || LiteralRead(w, mem0, pc, i) == Literal(w, mem, LdrAddress(w, pc))
  }

  /** One instruction: the new one leaves the same memory, and the same
      registers exactly when its literal is the right one. */
  lemma OneStep(cpu: Cpu, block: seq<Word>, from: nat, mem0: Mem, to: nat, i: nat, o: State, n: State)
    requires FitsStreams(block, from, mem0) && i < |block| && !IsBr(block[i])
    requires to + |NewBlock(block, from, mem0)| <= X
    requires InStep(o, n, NewBlock(block, from, mem0), from, to, i)
    ensures var o', n' := Step(cpu, block[i], o), Go(cpu, n);
            && o'.pc == from + 4 * (i + 1) && n'.pc == to + 4 * (i + 1) && n'.mem == o'.mem
            && (n'.regs == o'.regs <==> LiteralSame(block[i], mem0, o.mem, from + 4 * i, i))
  {
    hide Pool, NewCode, Bytes, IsAdr, IsAdrp, IsLdrLiteral, IsBr, LdrWide, Literal, AdrTarget, AdrpTarget, LdrAddress, NewBlock, Holds, Distance, MakeLdrLiteral;
    var b, w := NewBlock(block, from, mem0), block[i];
    NewWord(block, from, mem0, i);
    FetchAt(n.mem, to, b, 4 * i, Moved(block, from, mem0, i));
    OneKind(w);
    if Pooled(w) {
      LoadStep(cpu, block, from, mem0, to, i, n);
      var pc := from + 4 * i;
      SetSame(o.regs, Rd(w), PoolValue(w, mem0, pc, i), Literal(w, o.mem, LdrAddress(w, pc)));
    }
  }

  lemma SetSame(r: Regs, d: nat, x: Dword, y: Dword)
    requires d < 32
    ensures Set(r, d, x) == Set(r, d, y) <==> d == 31 || x == y
  {
    if d < 31 {
      assert r[d := x][d] == x && r[d := y][d] == y;
    }
  }

  /** An instruction that became a load loads its value from the pool. */
  lemma LoadStep(cpu: Cpu, block: seq<Word>, from: nat, mem0: Mem, to: nat, i: nat, n: State)
    requires FitsStreams(block, from, mem0) && i < |block| && Pooled(block[i])
    requires to + |NewBlock(block, from, mem0)| <= X && Holds(n.mem, to, NewBlock(block, from, mem0))
    requires n.pc == to + 4 * i
    ensures var w := block[i];
            Step(cpu, Moved(block, from, mem0, i), n)
            == State(Set(n.regs, Rd(w), PoolValue(w, mem0, from + 4 * i, i)), n.mem, n.pc + 4)
  {
    hide Pool, NewCode, Bytes, IsAdr, IsAdrp, IsLdrLiteral, IsBr, LdrWide, Literal, AdrTarget, AdrpTarget, LdrAddress,
      NewBlock, Holds, Distance, MakeLdrLiteral, PoolValue, PoolSize, Pooled, LdrImm;
    var b, w, dist := NewBlock(block, from, mem0), block[i], Distance(block, from, mem0, i);
    NewPool(block, from, mem0, i);
    DistanceFits(block, from, mem0, i);
    PoolValueFits(w, mem0, from + 4 * i, i);
    SameSize(PoolSize(w) == 8, dist / 4, w);
    PoolLoad(n.mem, to, b, 4 * i, dist, Moved(block, from, mem0, i), PoolValue(w, mem0, from + 4 * i, i));
  }

  lemma SameSize(wide: bool, imm: nat, w: Word)
    requires Pooled(w) && wide == (PoolSize(w) == 8)
    ensures LdrSize(MakeLdrLiteral(wide, imm, Rd(w))) == PoolSize(w)
  {
  }

  lemma PoolValueFits(w: Word, mem: Mem, pc: nat, i: nat)
    requires Pooled(w)
    ensures PoolValue(w, mem, pc, i) < Power256(PoolSize(w))
  {
    Powers();
    ReadBound(mem, LdrAddress(w, pc) + i * LdrSize(w), LdrSize(w));
  }

  lemma Within(a: seq<Byte>, b: seq<Byte>, c: seq<Byte>, k: nat, n: nat)
    requires k + n <= |b|
    ensures (a + b + c)[|a| + k..|a| + k + n] == b[k..k + n]
  {
  }

  lemma NewWord(block: seq<Word>, from: nat, mem: Mem, i: nat)
    requires i < |block|
    ensures var b := NewBlock(block, from, mem);
            4 * i + 4 <= |b| && b[4 * i..4 * i + 4] == Bytes(Moved(block, from, mem, i), 4)
  {
    hide Bytes, JumpLoad, NewCode, Pool, Moved, MakeBr, Wrap;
    CodeAt(block, from, mem, i, |block|);
    var c := NewCode(block, from, mem, |block|);
    var rest := Bytes(JumpLoad(block, from, mem), 4) + Bytes(MakeBr(16), 4)
      + Pool(block, from, mem, |block|) + Bytes(Wrap(from + 4 * |block|), 8);
    assert NewBlock(block, from, mem) == [] + c + rest;
    Within([], c, rest, 4 * i, 4);
  }

  lemma NewPool(block: seq<Word>, from: nat, mem: Mem, i: nat)
    requires i < |block| && Pooled(block[i])
    ensures var b, k := NewBlock(block, from, mem), 4 * i + Distance(block, from, mem, i); var n := PoolSize(block[i]);
            k + n <= |b| && b[k..k + n] == Bytes(PoolValue(block[i], mem, from + 4 * i, i), n)
  {
    hide Bytes, JumpLoad, NewCode, Pool, Moved, MakeBr, Wrap, PoolValue, PoolSize, Pooled;
    PoolAt(block, from, mem, i, |block|);
    var front := NewCode(block, from, mem, |block|) + Bytes(JumpLoad(block, from, mem), 4) + Bytes(MakeBr(16), 4);
    var p, back := Pool(block, from, mem, |block|), Bytes(Wrap(from + 4 * |block|), 8);
    assert NewBlock(block, from, mem) == front + p + back;
    Within(front, p, back, |Pool(block, from, mem, i)|, PoolSize(block[i]));
  }

  /** Along the run of the old block nothing is written over the new block, and
      the literals that were captured are the ones that it loads. */
  ghost predicate Undisturbed(cpu: Cpu, block: seq<Word>, from: nat, mem0: Mem, to: nat, s: State) {
    forall i :: 0 <= i <= |block| ==> UndisturbedAt(cpu, block, from, mem0, to, s, i)
  }

  ghost predicate UndisturbedAt(cpu: Cpu, block: seq<Word>, from: nat, mem0: Mem, to: nat, s: State, i: nat)
    requires i <= |block|
  {
    var mem := Run(cpu, block, i, s).mem;
    && Holds(mem, to, NewBlock(block, from, mem0))
    && (i < |block| ==> LiteralSame(block[i], mem0, mem, from + 4 * i, i))
  }

  lemma {:induction false} KeepsInStep(cpu: Cpu, block: seq<Word>, from: nat, mem0: Mem, to: nat, s: State, i: nat)
    requires FitsStreams(block, from, mem0) && Straight(block) && i <= |block|
    requires to + |NewBlock(block, from, mem0)| <= X && s.pc == from
    requires Undisturbed(cpu, block, from, mem0, to, s)
    ensures InStep(Run(cpu, block, i, s), GoOn(cpu, i, s.(pc := to)), NewBlock(block, from, mem0), from, to, i)
  {
    hide NewBlock, Step, Straight, FitsStreams, LiteralSame;
    assert UndisturbedAt(cpu, block, from, mem0, to, s, i);
    if i > 0 {
      KeepsInStep(cpu, block, from, mem0, to, s, i - 1);
      assert UndisturbedAt(cpu, block, from, mem0, to, s, i - 1);
      NoBranch(block, i - 1);
      OneStep(cpu, block, from, mem0, to, i - 1, Run(cpu, block, i - 1, s), GoOn(cpu, i - 1, s.(pc := to)));
    }
  }

  lemma NoBranch(block: seq<Word>, i: nat)
    requires Straight(block) && i < |block|
    ensures !IsBr(block[i])
  {
  }

  /** The new block, run from memory, does what the old one did and goes on where
      the old one ended; only x16 may differ. */
  lemma MovedRun(cpu: Cpu, block: seq<Word>, from: nat, mem0: Mem, to: nat, s: State)
    requires FitsStreams(block, from, mem0) && Straight(block) && from + 4 * |block| < X
    requires to + |NewBlock(block, from, mem0)| <= X && s.pc == from
    requires Undisturbed(cpu, block, from, mem0, to, s)
    ensures var o, n := Run(cpu, block, |block|, s), GoOn(cpu, |block| + 2, s.(pc := to));
            n.pc == o.pc == from + 4 * |block| && n.mem == o.mem && n.regs == o.regs[16 := from + 4 * |block|]
  {
    hide NewBlock, Step, FitsStreams;
    KeepsInStep(cpu, block, from, mem0, to, s, |block|);
    var n := GoOn(cpu, |block|, s.(pc := to));
    JumpsBack(cpu, block, from, mem0, to, n);
    assert GoOn(cpu, |block| + 1, s.(pc := to)) == Go(cpu, n);
    assert GoOn(cpu, |block| + 2, s.(pc := to)) == Go(cpu, Go(cpu, n));
  }

  lemma JumpsBack(cpu: Cpu, block: seq<Word>, from: nat, mem0: Mem, to: nat, n: State)
    requires FitsStreams(block, from, mem0) && from + 4 * |block| < X
    requires to + |NewBlock(block, from, mem0)| <= X && Holds(n.mem, to, NewBlock(block, from, mem0))
    requires n.pc == to + 4 * |block|
    ensures Go(cpu, Go(cpu, n)) == State(n.regs[16 := from + 4 * |block|], n.mem, from + 4 * |block|)
  {
    hide Pool, NewCode, Bytes, IsAdr, IsAdrp, IsLdrLiteral, IsBr, LdrWide, Literal, LdrAddress, NewBlock, Holds,
      Distance, MakeLdrLiteral, MakeBr, LdrImm, Rd, Rn;
    var b, k, dist := NewBlock(block, from, mem0), 4 * |block|, Distance(block, from, mem0, |block|);
    var load, target: Dword := JumpLoad(block, from, mem0), from + 4 * |block|;
    NewTail(block, from, mem0);
    FetchAt(n.mem, to, b, k, load);
    FetchAt(n.mem, to, b, k + 4, MakeBr(16));
    DistanceFits(block, from, mem0, |block|);
    Powers();
    PoolLoad(n.mem, to, b, k, dist, load, target);
  }

  lemma NewTail(block: seq<Word>, from: nat, mem: Mem)
    requires from + 4 * |block| < X
    ensures var b, k, dist := NewBlock(block, from, mem), 4 * |block|, Distance(block, from, mem, |block|);
            && k + dist + 8 == |b| && b[k..k + 4] == Bytes(JumpLoad(block, from, mem), 4)
            && b[k + 4..k + 8] == Bytes(MakeBr(16), 4)
            && b[k + dist..k + dist + 8] == Bytes(from + 4 * |block|, 8)
  {
    hide Bytes, JumpLoad, NewCode, Pool, Moved, MakeBr;
    var c, l, r := NewCode(block, from, mem, |block|), Bytes(JumpLoad(block, from, mem), 4), Bytes(MakeBr(16), 4);
    var p, t := Pool(block, from, mem, |block|), Bytes(from + 4 * |block|, 8);
    var b := NewBlock(block, from, mem);
    assert b == c + l + (r + p + t);
    Within(c, l, r + p + t, 0, 4);
    assert b == (c + l) + r + (p + t);
    Within(c + l, r, p + t, 0, 4);
    assert b == (c + l + r + p) + t + [];
    Within(c + l + r + p, t, [], 0, 8);
  }

  /** 62 instructions and 31 literals of 64 bits fit, so blocks as long as those
      the hooks move always do. */
  lemma HookFits(block: seq<Word>, from: nat, mem: Mem)
    ensures FitsStreams(block, from, mem) <==> |block| <= 62 && |Pool(block, from, mem, |block|)| <= 248
    ensures |block| <= 30 ==> FitsStreams(block, from, mem)
  {
    PoolAligned(block, from, mem, |block|);
  }

  /** What can be seen before a block is moved: the literal is read at its own
      address, or is thrown away, or happens to be equal to the word that is
      `i` literals further on. */
  predicate Captured(w: Word, mem0: Mem, pc: nat, i: nat) {
    IsLdrLiteral(w) ==> i == 0 || Rd(w) == 31 || LiteralRead(w, mem0, pc, i) == Literal(w, mem0, LdrAddress(w, pc))
  }

  /** The literal is still what it was when the block was moved. */
  predicate Unchanged(w: Word, mem0: Mem, mem: Mem, pc: nat) {
    IsLdrLiteral(w) ==> Literal(w, mem, LdrAddress(w, pc)) == Literal(w, mem0, LdrAddress(w, pc))
  }

  lemma FirstLiteral(w: Word, mem: Mem, pc: nat)
    ensures LiteralSame(w, mem, mem, pc, 0)
  {
  }

  /** While its literal is unchanged, an instruction moves faithfully exactly if
      the literal was captured right. */
  lemma CapturedRight(w: Word, mem0: Mem, mem: Mem, pc: nat, i: nat)
    requires Unchanged(w, mem0, mem, pc)
    ensures LiteralSame(w, mem0, mem, pc, i) <==> Captured(w, mem0, pc, i)
  {
    hide IsLdrLiteral, Literal, LdrAddress;
    if i == 0 { FirstLiteral(w, mem0, pc); }
  }

  /** Along the run of the old block nothing is written over the new block nor
      over a literal that is loaded. */
  ghost predicate Untouched(cpu: Cpu, block: seq<Word>, from: nat, mem0: Mem, to: nat, s: State) {
    forall i :: 0 <= i <= |block| ==> UntouchedAt(cpu, block, from, mem0, to, s, i)
  }

  ghost predicate UntouchedAt(cpu: Cpu, block: seq<Word>, from: nat, mem0: Mem, to: nat, s: State, i: nat)
    requires i <= |block|
  {
    var mem := Run(cpu, block, i, s).mem;
    Holds(mem, to, NewBlock(block, from, mem0)) && (i < |block| ==> Unchanged(block[i], mem0, mem, from + 4 * i))
  }

  predicate AllCaptured(block: seq<Word>, from: nat, mem0: Mem) {
    forall i :: 0 <= i < |block| ==> Captured(block[i], mem0, from + 4 * i, i)
  }

  /** Of a block whose literals were captured right the new one does what the old
      one did, as long as nothing writes over either. */
  lemma CapturedRun(cpu: Cpu, block: seq<Word>, from: nat, mem0: Mem, to: nat, s: State)
    requires FitsStreams(block, from, mem0) && Straight(block) && from + 4 * |block| < X
    requires to + |NewBlock(block, from, mem0)| <= X && s.pc == from
    requires AllCaptured(block, from, mem0) && Untouched(cpu, block, from, mem0, to, s)
    ensures var o, n := Run(cpu, block, |block|, s), GoOn(cpu, |block| + 2, s.(pc := to));
            n.pc == o.pc == from + 4 * |block| && n.mem == o.mem && n.regs == o.regs[16 := from + 4 * |block|]
  {
    hide FitsStreams, Straight, NewBlock, Holds, Captured, Unchanged, LiteralSame, Step, Run;
    forall i | 0 <= i <= |block|
      ensures UndisturbedAt(cpu, block, from, mem0, to, s, i)
    {
      assert UntouchedAt(cpu, block, from, mem0, to, s, i);
      if i < |block| { CapturedRight(block[i], mem0, Run(cpu, block, i, s).mem, from + 4 * i, i); }
    }
    MovedRun(cpu, block, from, mem0, to, s);
  }

  /** Already for the second instruction of a block the wrong word is captured,
      and the register gets another value than in the old block. */
  lemma LaterLiteral(pc: nat)
    requires pc < X - 1024
    ensures var w := MakeLdrLiteral(true, 4, 0);
            exists mem: Mem :: !Captured(w, mem, pc, 1)
              && forall r: Regs :: Set(r, Rd(w), PoolValue(w, mem, pc, 1)) != Set(r, Rd(w), Literal(w, mem, LdrAddress(w, pc)))
  {
    var w := MakeLdrLiteral(true, 4, 0);
    var mem: Mem := a => if a == pc + 16 then 1 as Byte else 0 as Byte;
    assert LdrAddress(w, pc) == pc + 16;
    ReadZero(mem, pc + 24, 8, pc + 16);
    ReadZero(mem, pc + 17, 7, pc + 16);
    assert ReadLE(mem, pc + 16, 8) == 1;
    assert !Captured(w, mem, pc, 1);
    forall r: Regs
      ensures Set(r, Rd(w), PoolValue(w, mem, pc, 1)) != Set(r, Rd(w), Literal(w, mem, LdrAddress(w, pc)))
    {
      SetSame(r, Rd(w), PoolValue(w, mem, pc, 1), Literal(w, mem, LdrAddress(w, pc)));
    }
  }

  lemma {:induction false} ReadZero(mem: Mem, at: nat, n: nat, one: nat)
    requires one < at && forall a :: a != one ==> mem(a) == 0
    ensures ReadLE(mem, at, n) == 0
    decreases n
  {
    if n > 0 { ReadZero(mem, at + 1, n - 1, one); }
  }

  /** LHWriteAArch64LongJump: two instructions and the target. */
  function LongJump(target: Dword): seq<Byte> {
    Bytes(MakeLdrLiteral(true, 2, 16), 4) + Bytes(MakeBr(16), 4) + Bytes(target, 8)
  }

  lemma LongJumps(cpu: Cpu, target: Dword, s: State)
    requires Holds(s.mem, s.pc, LongJump(target)) && s.pc + 16 <= X
    ensures Go(cpu, Go(cpu, s)) == State(s.regs[16 := target], s.mem, target)
  {
    hide Bytes, IsAdr, IsAdrp, IsLdrLiteral, IsBr, LdrWide, Literal, LdrAddress, Holds, MakeLdrLiteral, MakeBr, LdrImm, Rd, Rn;
    var l, r, t := Bytes(MakeLdrLiteral(true, 2, 16), 4), Bytes(MakeBr(16), 4), Bytes(target, 8);
    var b := LongJump(target);
    assert b == [] + l + (r + t) && b == l + r + t && b == (l + r) + t + [];
    Within([], l, r + t, 0, 4);
    Within(l, r, t, 0, 4);
    Within(l + r, t, [], 0, 8);
    FetchAt(s.mem, s.pc, b, 0, MakeLdrLiteral(true, 2, 16));
    FetchAt(s.mem, s.pc, b, 4, MakeBr(16));
    Powers();
    PoolLoad(s.mem, s.pc, b, 0, 8, MakeLdrLiteral(true, 2, 16), target);
  }
}
