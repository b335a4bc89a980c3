/** The instructions of the virtual machine that the code generator uses, and
    programs whose jumps may not have a destination yet. */
module LuaProgram {
  /** A register operand: eight bits. */
  type Reg = r: nat | r < 256

  const NO_REG: Reg := 255

  datatype Value = Nil | Bool(b: bool) | Data(id: int)

  type Regs = s: seq<Value> | |s| == 256 witness seq(256, _ => Nil)

  predicate IsFalse(v: Value) { v == Nil || v == Bool(false) }

  datatype Order = EQ | LT | LE

  /** How values compare is left to the machine. */
  datatype Rules = Rules(eq: (Value, Value) -> bool, lt: (Value, Value) -> bool, le: (Value, Value) -> bool)

  function Compare(m: Rules, op: Order, x: Value, y: Value): bool {
    match op
    case EQ => m.eq(x, y)
    case LT => m.lt(x, y)
    case LE => m.le(x, y)
  }

  datatype Instr =
    | Move(a: Reg, b: Reg)
    | LoadBool(a: Reg, v: bool, skip: bool)
    | Not(a: Reg, b: Reg)
    | Cmp(op: Order, cond: bool, b: Reg, c: Reg)
    | Test(a: Reg, cond: bool)
    | TestSet(a: Reg, b: Reg, cond: bool)
    | Jmp(sbx: int)
    | Return(a: Reg, n: nat)

  /** The instructions that skip the jump behind them or not. */
  predicate IsTest(i: Instr) { i.Cmp? || i.Test? || i.TestSet? }

  /** Whether a test goes on to the jump behind it. */
  function Holds(m: Rules, i: Instr, regs: Regs): bool
    requires IsTest(i)
  {
    match i
    case Cmp(op, cond, b, c) => Compare(m, op, regs[b], regs[c]) == cond
    case Test(a, cond) => !IsFalse(regs[a]) == cond
    case TestSet(_, b, cond) => !IsFalse(regs[b]) == cond
  }

  /** The registers after the instruction; a test that holds may set one. */
  function After(i: Instr, regs: Regs): Regs {
    match i
    case Move(a, b) => regs[a := regs[b]]
    case LoadBool(a, v, _) => regs[a := Bool(v)]
    case Not(a, b) => regs[a := Bool(IsFalse(regs[b]))]
    case TestSet(a, b, _) => regs[a := regs[b]]
    case _ => regs
  }

  /** Where a jump goes, if that is settled. */
  datatype Dest = To(pc: nat) | Open

  datatype Op = Do(i: Instr) | Go(d: Dest)

  type Program = seq<Op>

  /** A run arrives at its stop, leaves by a jump that is still open, or goes wrong. */
  datatype Outcome = At(regs: Regs) | Exit(jump: nat, regs: Regs) | Bad

  predicate Controlled(prog: Program, j: nat) {
    1 <= j < |prog| && prog[j - 1].Do? && IsTest(prog[j - 1].i)
  }

  /** Runs from `pc` to `stop`. Jumps go forward; a jump behind a test is only
      come to by that test. */
  function Run(m: Rules, prog: Program, pc: nat, stop: nat, regs: Regs): Outcome
    decreases stop - pc
  {
    if pc == stop then At(regs)
    else if pc > stop || stop > |prog| then Bad
    else
      match prog[pc]
      case Go(Open) => if Controlled(prog, pc) then Bad else Exit(pc, regs)
      case Go(To(d)) => if pc < d then Run(m, prog, d, stop, regs) else Bad
      case Do(i) =>
        if i.Jmp? || i.Return? then Bad
        else if !IsTest(i) then
          Run(m, prog, if i.LoadBool? && i.skip then pc + 2 else pc + 1, stop, After(i, regs))
        else if pc + 1 >= stop || !prog[pc + 1].Go? then Bad
        else if !Holds(m, i, regs) then Run(m, prog, pc + 2, stop, regs)
        else
          match prog[pc + 1].d
          case Open => Exit(pc + 1, regs)
          case To(d) => if pc + 1 < d then Run(m, prog, d, stop, After(i, regs)) else Bad
  }

  /** A run depends on the program up to its stop only. */
  lemma {:induction false} RunSame(m: Rules, p: Program, q: Program, pc: nat, stop: nat, regs: Regs)
    requires stop <= |p| && stop <= |q| && p[..stop] == q[..stop]
    ensures Run(m, p, pc, stop, regs) == Run(m, q, pc, stop, regs)
    decreases stop - pc
  {
    if pc < stop {
      assert p[pc] == p[..stop][pc] == q[pc];
      assert pc > 0 ==> p[pc - 1] == p[..stop][pc - 1] == q[pc - 1];
      assert pc + 1 < stop ==> p[pc + 1] == p[..stop][pc + 1] == q[pc + 1];
      match p[pc]
      case Go(Open) =>
      case Go(To(d)) => if pc < d { RunSame(m, p, q, d, stop, regs); }
      case Do(i) =>
        if i.Jmp? || i.Return? {
        } else if !IsTest(i) {
          RunSame(m, p, q, if i.LoadBool? && i.skip then pc + 2 else pc + 1, stop, After(i, regs));
        } else if pc + 1 < stop && p[pc + 1].Go? {
          if !Holds(m, i, regs) { RunSame(m, p, q, pc + 2, stop, regs); }
          else if p[pc + 1].d.To? && pc + 1 < p[pc + 1].d.pc {
            RunSame(m, p, q, p[pc + 1].d.pc, stop, After(i, regs));
          }
        }
    }
  }

  /** What happens from `mid` on is put behind a run to `mid`. */
  function Then(m: Rules, prog: Program, o: Outcome, mid: nat, stop: nat): Outcome {
    if o.At? then Run(m, prog, mid, stop, o.regs) else o
  }

  lemma {:induction false} RunOn(m: Rules, prog: Program, pc: nat, mid: nat, stop: nat, regs: Regs)
    requires mid <= stop <= |prog| && Run(m, prog, pc, mid, regs) != Bad
    ensures Run(m, prog, pc, stop, regs) == Then(m, prog, Run(m, prog, pc, mid, regs), mid, stop)
    decreases mid - pc
  {
    if pc < mid {
      match prog[pc]
      case Go(Open) =>
      case Go(To(d)) => RunOn(m, prog, d, mid, stop, regs);
      case Do(i) =>
        if !IsTest(i) {
          RunOn(m, prog, if i.LoadBool? && i.skip then pc + 2 else pc + 1, mid, stop, After(i, regs));
        } else if !Holds(m, i, regs) {
          RunOn(m, prog, pc + 2, mid, stop, regs);
        } else if prog[pc + 1].d.To? {
          RunOn(m, prog, prog[pc + 1].d.pc, mid, stop, After(i, regs));
        }
    }
  }

  /** How a settled jump changed the program: its destination, and, in the
      test before it, at most which register gets the tested value. */
  ghost predicate Settled(p: Program, q: Program, js: set<nat>, stop: nat) {
    && |p| == |q| && stop <= |p|
    && (forall j :: j in js ==> j < |p| && p[j] == Go(Open) && q[j].Go? && q[j].d.To? && j < q[j].d.pc <= stop)
    && (forall k :: 0 <= k < |p| && k !in js ==> SameTest(p[k], q[k]) && (k + 1 !in js ==> p[k] == q[k]))
  }

  predicate SameTest(a: Op, b: Op) {
    a == b || (a.Do? && b.Do? && a.i.TestSet? &&
               (b.i == Test(a.i.b, a.i.cond) || (b.i.TestSet? && b.i.b == a.i.b && b.i.cond == a.i.cond)))
  }

  /** What a run that left by a jump does once the jump is settled. */
  function Resume(m: Rules, q: Program, js: set<nat>, o: Outcome, stop: nat): Outcome {
    if o.Exit? && o.jump in js && o.jump < |q| && q[o.jump].Go? && q[o.jump].d.To? then
      Run(m, q, q[o.jump].d.pc, stop,
          if Controlled(q, o.jump) then After(q[o.jump - 1].i, o.regs) else o.regs)
    else o
  }

  lemma {:induction false} RunSettled(m: Rules, p: Program, q: Program, js: set<nat>, pc: nat, stop: nat, regs: Regs)
    requires Settled(p, q, js, stop) && Run(m, p, pc, stop, regs) != Bad
    ensures Run(m, q, pc, stop, regs) == Resume(m, q, js, Run(m, p, pc, stop, regs), stop)
    decreases stop - pc
  {
    if pc < stop {
      match p[pc]
      case Go(Open) =>
      case Go(To(d)) => RunSettled(m, p, q, js, d, stop, regs);
      case Do(i) =>
        if !IsTest(i) {
          assert p[pc] == q[pc];
          RunSettled(m, p, q, js, if i.LoadBool? && i.skip then pc + 2 else pc + 1, stop, After(i, regs));
        } else if !Holds(m, i, regs) {
          RunSettled(m, p, q, js, pc + 2, stop, regs);
        } else if p[pc + 1].d.To? {
          RunSettled(m, p, q, js, p[pc + 1].d.pc, stop, After(i, regs));
        }
    }
  }

  /** Tests whose jumps stay open may stop setting a register. */
  ghost predicate Retested(p: Program, q: Program, js: set<nat>) {
    && |p| == |q|
    && (forall j :: j in js ==> j < |p| && p[j] == Go(Open))
    && (forall k :: 0 <= k < |p| ==> SameTest(p[k], q[k]) && (k + 1 !in js ==> p[k] == q[k]))
  }

  lemma {:induction false} RunRetested(m: Rules, p: Program, q: Program, js: set<nat>, pc: nat, stop: nat, regs: Regs)
    requires Retested(p, q, js)
    ensures Run(m, q, pc, stop, regs) == Run(m, p, pc, stop, regs)
    decreases stop - pc
  {
    if pc < stop <= |p| {
      match p[pc]
      case Go(Open) =>
      case Go(To(d)) => if pc < d { RunRetested(m, p, q, js, d, stop, regs); }
      case Do(i) =>
        if !IsTest(i) {
          assert p[pc] == q[pc];
          if !i.Jmp? && !i.Return? {
            RunRetested(m, p, q, js, if i.LoadBool? && i.skip then pc + 2 else pc + 1, stop, After(i, regs));
          }
        } else if pc + 1 < stop && p[pc + 1].Go? {
          if !Holds(m, i, regs) { RunRetested(m, p, q, js, pc + 2, stop, regs); }
          else if p[pc + 1].d.To? && pc + 1 < p[pc + 1].d.pc {
            RunRetested(m, p, q, js, p[pc + 1].d.pc, stop, After(i, regs));
          }
        }
    }
  }

  /** Jumps to a jump at `h` may go on to its destination at once. */
  ghost predicate Shortened(p: Program, q: Program, js: set<nat>, h: nat, f: nat) {
    && |p| == |q| && h < |p| && h < f && p[h] == q[h] == Go(To(f)) && h !in js
    && (forall k :: 0 <= k < |p| ==> if k in js then p[k] == Go(To(h)) && q[k] == Go(To(f)) else p[k] == q[k])
  }

  lemma {:induction false} RunShortened(m: Rules, p: Program, q: Program, js: set<nat>, h: nat, f: nat,
                                        pc: nat, stop: nat, regs: Regs)
    requires Shortened(p, q, js, h, f) && h != stop && Run(m, p, pc, stop, regs) != Bad
    ensures Run(m, q, pc, stop, regs) == Run(m, p, pc, stop, regs)
    decreases stop - pc
  {
    if pc < stop <= |p| {
      match p[pc]
      case Go(Open) =>
      case Go(To(d)) => RunShortened(m, p, q, js, h, f, d, stop, regs);
      case Do(i) =>
        if !IsTest(i) {
          RunShortened(m, p, q, js, h, f, if i.LoadBool? && i.skip then pc + 2 else pc + 1, stop, After(i, regs));
        } else if !Holds(m, i, regs) {
          RunShortened(m, p, q, js, h, f, pc + 2, stop, regs);
        } else if p[pc + 1].d.To? {
          RunShortened(m, p, q, js, h, f, p[pc + 1].d.pc, stop, After(i, regs));
        }
    }
  }
}
