/** Instructions as 32-bit words: fields, the signed jump field, and the macros
    that read and set them. Masks and shifts are quotients and remainders. */
module LuaOpcodes {
  import opened LuaProgram
  import opened LuaLists
  import opened LuaMachine

  type Word = w: nat | w < 0x1_0000_0000

  const MAXARG_Bx: nat := 0x3_ffff

  function GetOpcode(w: Word): nat { w % 64 }

  function GetA(w: Word): nat { w / 64 % 256 }

  function GetC(w: Word): nat { w / 0x4000 % 512 }

  function GetB(w: Word): nat { w / 0x80_0000 }

  function GetBx(w: Word): nat { w / 0x4000 }

  /** GETARG_sBx: excess MAXARG_sBx. */
  function GetSBx(w: Word): int { GetBx(w) - MAXARG_sBx }

  function CreateABC(o: nat, a: nat, b: nat, c: nat): (w: Word)
    requires o < 64 && a < 256 && b < 512 && c < 512
  {
    o + 64 * a + 0x4000 * c + 0x80_0000 * b
  }

  function CreateABx(o: nat, a: nat, bx: nat): (w: Word)
    requires o < 64 && a < 256 && bx <= MAXARG_Bx
  {
    o + 64 * a + 0x4000 * bx
  }

  /** SETARG_A */
  function SetA(w: Word, u: nat): Word
    requires u < 256
  {
    CreateABC(GetOpcode(w), u, GetB(w), GetC(w))
  }

  /** SETARG_Bx: a number that does not fit loses its upper bits. */
  function SetBx(w: Word, v: int): Word { CreateABx(GetOpcode(w), GetA(w), v % 0x4_0000) }

  /** SETARG_sBx */
  function SetSBx(w: Word, v: int): Word { SetBx(w, v + MAXARG_sBx) }

  lemma FieldsABC(o: nat, a: nat, b: nat, c: nat)
    requires o < 64 && a < 256 && b < 512 && c < 512
    ensures var w := CreateABC(o, a, b, c); GetOpcode(w) == o && GetA(w) == a && GetB(w) == b && GetC(w) == c
  {
    var w := CreateABC(o, a, b, c);
    assert w / 64 == a + 256 * c + 0x2_0000 * b;
    assert w / 0x4000 == c + 512 * b;
  }

  lemma FieldsABx(o: nat, a: nat, bx: nat)
    requires o < 64 && a < 256 && bx <= MAXARG_Bx
    ensures var w := CreateABx(o, a, bx); GetOpcode(w) == o && GetA(w) == a && GetBx(w) == bx
  {
    var w := CreateABx(o, a, bx);
    assert w / 64 == a + 256 * bx;
  }

  /** Every word is made of its fields. */
  lemma FieldsMake(w: Word)
    ensures GetB(w) < 512 && w == CreateABC(GetOpcode(w), GetA(w), GetB(w), GetC(w))
    ensures GetBx(w) <= MAXARG_Bx && w == CreateABx(GetOpcode(w), GetA(w), GetBx(w))
  {
    var x, y := w / 64, w / 0x4000;
    assert x / 256 == y && y / 512 == GetB(w);
    assert w == 64 * x + w % 64 && x == 256 * y + x % 256 && y == 512 * GetB(w) + y % 512;
  }

  /** What is stored in the jump field comes back exactly when it is in range;
      the other fields stay. */
  lemma StoredBack(w: Word, v: int)
    ensures GetSBx(SetSBx(w, v)) == v <==> -MAXARG_sBx <= v <= MAXARG_sBx + 1
    ensures GetOpcode(SetSBx(w, v)) == GetOpcode(w) && GetA(SetSBx(w, v)) == GetA(w)
  {
    FieldsABx(GetOpcode(w), GetA(w), (v + MAXARG_sBx) % 0x4_0000);
  }

  /** getjump on a word. */
  function NextWord(w: Word, pc: nat): int {
    if GetSBx(w) == NO_JUMP then NO_JUMP else pc + 1 + GetSBx(w)
  }

  /** What fixjump stores after its test is what getjump reads; a jump to itself
      is the end of a list. */
  lemma FixedWord(w: Word, pc: nat, dest: int)
    requires -MAXARG_sBx <= dest - (pc + 1) <= MAXARG_sBx
    ensures NextWord(SetSBx(w, dest - (pc + 1)), pc) == if dest == pc then NO_JUMP else dest
  {
    StoredBack(w, dest - (pc + 1));
  }

  const OP_MOVE: nat := 0
  const OP_LOADBOOL: nat := 2
  const OP_NOT: nat := 19
  const OP_JMP: nat := 22
  const OP_EQ: nat := 23
  const OP_LT: nat := 24
  const OP_LE: nat := 25
  const OP_TEST: nat := 26
  const OP_TESTSET: nat := 27
  const OP_RETURN: nat := 30

  predicate Packable(i: Instr) {
    match i
    case Jmp(sbx) => -MAXARG_sBx <= sbx <= MAXARG_sBx + 1
    case Return(_, n) => n < 512
    case _ => true
  }

  function Flag(b: bool): nat { if b then 1 else 0 }

  function OrderCode(op: Order): nat { if op.EQ? then OP_EQ else if op.LT? then OP_LT else OP_LE }

  function Pack(i: Instr): Word
    requires Packable(i)
  {
    match i
    case Move(a, b) => CreateABC(OP_MOVE, a, b, 0)
    case LoadBool(a, v, skip) => CreateABC(OP_LOADBOOL, a, Flag(v), Flag(skip))
    case Not(a, b) => CreateABC(OP_NOT, a, b, 0)
    case Cmp(op, cond, b, c) => CreateABC(OrderCode(op), Flag(cond), b, c)
    case Test(a, cond) => CreateABC(OP_TEST, a, 0, Flag(cond))
    case TestSet(a, b, cond) => CreateABC(OP_TESTSET, a, b, Flag(cond))
    case Jmp(sbx) => CreateABx(OP_JMP, 0, sbx + MAXARG_sBx)
    case Return(a, n) => CreateABC(OP_RETURN, a, n, 0)
  }

  /** How the machine takes a word apart; its registers are below 256. */
  function Unpack(w: Word): Instr
    requires GetB(w) < 256 || GetOpcode(w) == OP_JMP || GetOpcode(w) == OP_RETURN
    requires GetC(w) < 256 || GetOpcode(w) == OP_JMP
  {
    var o, a, b, c := GetOpcode(w), GetA(w), GetB(w), GetC(w);
    if o == OP_MOVE then Move(a, b)
    else if o == OP_LOADBOOL then LoadBool(a, b != 0, c != 0)
    else if o == OP_NOT then Not(a, b)
    else if o == OP_EQ then Cmp(EQ, a != 0, b, c)
    else if o == OP_LT then Cmp(LT, a != 0, b, c)
    else if o == OP_LE then Cmp(LE, a != 0, b, c)
    else if o == OP_TEST then Test(a, c != 0)
    else if o == OP_TESTSET then TestSet(a, b, c != 0)
    else if o == OP_JMP then Jmp(GetSBx(w))
    else Return(a, b)
  }

  lemma PackFields(i: Instr)
    requires Packable(i)
    ensures var w := Pack(i);
            && (GetB(w) < 256 || GetOpcode(w) == OP_JMP || GetOpcode(w) == OP_RETURN)
            && (GetC(w) < 256 || GetOpcode(w) == OP_JMP) && Unpack(w) == i
  {
    hide GetOpcode, GetA, GetB, GetC, GetBx, CreateABC, CreateABx;
    match i
    case Move(a, b) => FieldsABC(OP_MOVE, a, b, 0);
    case LoadBool(a, v, skip) => FieldsABC(OP_LOADBOOL, a, Flag(v), Flag(skip));
    case Not(a, b) => FieldsABC(OP_NOT, a, b, 0);
    case Cmp(op, cond, b, c) => FieldsABC(OrderCode(op), Flag(cond), b, c);
    case Test(a, cond) => FieldsABC(OP_TEST, a, 0, Flag(cond));
    case TestSet(a, b, cond) => FieldsABC(OP_TESTSET, a, b, Flag(cond));
    case Jmp(sbx) => FieldsABx(OP_JMP, 0, sbx + MAXARG_sBx);
    case Return(a, n) => FieldsABC(OP_RETURN, a, n, 0);
  }

  /** Setting the field of a packed jump is fixing the jump, and setting the
      register of a packed test is retargeting the test. */
  lemma SetPacked(x: int, v: int, a: Reg, b: Reg, cond: bool, r: Reg)
    requires Packable(Jmp(x)) && Packable(Jmp(v))
    ensures SetSBx(Pack(Jmp(x)), v) == Pack(Jmp(v))
    ensures SetA(Pack(TestSet(a, b, cond)), r) == Pack(TestSet(r, b, cond))
  {
    hide GetOpcode, GetA, GetB, GetC, GetBx;
    FieldsABx(OP_JMP, 0, x + MAXARG_sBx);
    FieldsABC(OP_TESTSET, a, b, Flag(cond));
  }

  /** Where a test goes on: behind the next word, or where that word jumps to. */
  function Branch(code: Code, pc: nat, jumps: bool): int
    requires pc + 1 < |code| && Packable(code[pc + 1])
  {
    if jumps then pc + 2 + (Pack(code[pc + 1]) / 0x4000 - 131071) else pc + 2
  }

  /** What the machine does on a word, by the numbers in it. */
  lemma WordDoes(m: Rules, code: Code, pc: nat, regs: Regs)
    requires pc < |code| && Packable(code[pc])
    requires IsTest(code[pc]) ==> pc + 1 < |code| && code[pc + 1].Jmp? && Packable(code[pc + 1])
    ensures var w, next := Pack(code[pc]), Step(m, code, State(pc, regs));
      var o, a, b, c := w % 64, w / 64 % 256, w / 0x80_0000, w / 0x4000 % 512;
      && o in {0, 2, 19, 22, 23, 24, 25, 26, 27, 30} && (b < 256 || o == 22 || o == 30) && (c < 256 || o == 22)
      && (o == 0 ==> next == State(pc + 1, regs[a := regs[b]]))
      && (o == 2 ==> next == State(if c == 0 then pc + 1 else pc + 2, regs[a := Bool(b != 0)]))
      && (o == 19 ==> next == State(pc + 1, regs[a := Bool(regs[b] == Nil || regs[b] == Bool(false))]))
      && (o == 22 ==> next == State(pc + 1 + (w / 0x4000 - 131071), regs))
      && (o == 30 ==> next == State(pc, regs))
  {
    hide GetOpcode, GetA, GetB, GetC, GetBx, CreateABC, CreateABx, Pack;
    PackedNumbers(code[pc]);
  }

  /** The same for the tests. */
  lemma WordTests(m: Rules, code: Code, pc: nat, regs: Regs)
    requires pc + 1 < |code| && Packable(code[pc]) && code[pc + 1].Jmp? && Packable(code[pc + 1])
    ensures var w, next := Pack(code[pc]), Step(m, code, State(pc, regs));
      var o, a, b, c := w % 64, w / 64 % 256, w / 0x80_0000, w / 0x4000 % 512;
      && (23 <= o <= 27 ==> b < 256 && c < 256)
      && (o == 23 ==> next == State(Branch(code, pc, m.eq(regs[b], regs[c]) == (a != 0)), regs))
      && (o == 24 ==> next == State(Branch(code, pc, m.lt(regs[b], regs[c]) == (a != 0)), regs))
      && (o == 25 ==> next == State(Branch(code, pc, m.le(regs[b], regs[c]) == (a != 0)), regs))
      && (o == 26 ==>
            var f := regs[a] == Nil || regs[a] == Bool(false);
            next == State(Branch(code, pc, f == (c == 0)), regs))
      && (o == 27 ==>
            var f := regs[b] == Nil || regs[b] == Bool(false);
            next == State(Branch(code, pc, f == (c == 0)), if f == (c == 0) then regs[a := regs[b]] else regs))
  {
    hide GetOpcode, GetA, GetB, GetC, GetBx, CreateABC, CreateABx, Pack;
    PackedNumbers(code[pc]);
    PackedNumbers(code[pc + 1]);
  }

  /** The numbers of a packed instruction. */
  lemma PackedNumbers(i: Instr)
    requires Packable(i)
    ensures var w := Pack(i);
      var o, a, b, c := w % 64, w / 64 % 256, w / 0x80_0000, w / 0x4000 % 512;
      match i
      case Move(x, y) => o == 0 && a == x && b == y && c == 0
      case LoadBool(x, v, skip) => o == 2 && a == x && b == Flag(v) && c == Flag(skip)
      case Not(x, y) => o == 19 && a == x && b == y && c == 0
      case Cmp(op, cond, y, z) => o == OrderCode(op) && a == Flag(cond) && b == y && c == z
      case Test(x, cond) => o == 26 && a == x && b == 0 && c == Flag(cond)
      case TestSet(x, y, cond) => o == 27 && a == x && b == y && c == Flag(cond)
      case Jmp(sbx) => o == 22 && w / 0x4000 - 131071 == sbx
      case Return(x, n) => o == 30 && a == x && b == n && c == 0
  {
    hide CreateABC, CreateABx;
    match i
    case Move(a, b) => FieldsABC(OP_MOVE, a, b, 0);
    case LoadBool(a, v, skip) => FieldsABC(OP_LOADBOOL, a, Flag(v), Flag(skip));
    case Not(a, b) => FieldsABC(OP_NOT, a, b, 0);
    case Cmp(op, cond, b, c) => FieldsABC(OrderCode(op), Flag(cond), b, c);
    case Test(a, cond) => FieldsABC(OP_TEST, a, 0, Flag(cond));
    case TestSet(a, b, cond) => FieldsABC(OP_TESTSET, a, b, Flag(cond));
    case Jmp(sbx) => FieldsABx(OP_JMP, 0, sbx + MAXARG_sBx);
    case Return(a, n) => FieldsABC(OP_RETURN, a, n, 0);
  }
}
