/** The virtual machine, and that code with every jump settled does on it what
    the program it stands for does. */
module LuaMachine {
  import opened LuaProgram
  import opened LuaLists

  datatype State = State(pc: int, regs: Regs)

  /** One instruction. A test that holds takes the jump behind it as well; the
      machine stays at a return. */
  function Step(m: Rules, code: Code, st: State): State {
    if !(0 <= st.pc < |code|) then st
    else
      var i := code[st.pc];
      match i
      case Return(_, _) => st
      case Jmp(sbx) => State(st.pc + 1 + sbx, st.regs)
      case LoadBool(_, _, skip) => State(if skip then st.pc + 2 else st.pc + 1, After(i, st.regs))
      case _ =>
        if !IsTest(i) then State(st.pc + 1, After(i, st.regs))
        else if !Holds(m, i, st.regs) then State(st.pc + 2, st.regs)
        else if st.pc + 1 < |code| && code[st.pc + 1].Jmp? then
          State(st.pc + 2 + code[st.pc + 1].sbx, After(i, st.regs))
        else st
  }

  function Steps(m: Rules, code: Code, n: nat, st: State): State {
    if n == 0 then st else Steps(m, code, n - 1, Step(m, code, st))
  }

  /** Some number of steps leads from one state to the other. */
  ghost predicate Reaches(m: Rules, code: Code, a: State, b: State) {
    exists n: nat :: Steps(m, code, n, a) == b
  }

  lemma ReachesStep(m: Rules, code: Code, a: State, b: State)
    requires Reaches(m, code, Step(m, code, a), b)
    ensures Reaches(m, code, a, b)
  {
    var n: nat :| Steps(m, code, n, Step(m, code, a)) == b;
    assert Steps(m, code, n + 1, a) == b;
  }

  lemma ReachesSame(m: Rules, code: Code, a: State)
    ensures Reaches(m, code, a, a)
  {
    assert Steps(m, code, 0, a) == a;
  }

  lemma {:induction false} MachineRuns(m: Rules, code: Code, prog: Program, pc: nat, stop: nat, regs: Regs)
    requires Refines(code, prog, {}) && Run(m, prog, pc, stop, regs).At?
    ensures Reaches(m, code, State(pc, regs), State(stop, Run(m, prog, pc, stop, regs).regs))
    decreases stop - pc
  {
    var end := State(stop, Run(m, prog, pc, stop, regs).regs);
    if pc == stop {
      ReachesSame(m, code, end);
    } else {
      hide Reaches, Steps;
      assert Agrees(code, prog, {}, pc);
      ReachesStep(m, code, State(pc, regs), end) by {
        match prog[pc]
        case Go(To(d)) => MachineRuns(m, code, prog, d, stop, regs);
        case Do(i) =>
          if !IsTest(i) {
            MachineRuns(m, code, prog, if i.LoadBool? && i.skip then pc + 2 else pc + 1, stop, After(i, regs));
          } else {
            assert Agrees(code, prog, {}, pc + 1);
            if !Holds(m, i, regs) {
              MachineRuns(m, code, prog, pc + 2, stop, regs);
            } else {
              MachineRuns(m, code, prog, prog[pc + 1].d.pc, stop, After(i, regs));
            }
          }
      }
    }
  }
}
