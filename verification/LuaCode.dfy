/** The code generator: code that is emitted and patched in place. */
module LuaCode {
  import opened LuaProgram
  import opened LuaMeaning
  import opened LuaLists

  datatype SyntaxError = ControlTooLong | TooComplex

  datatype Status = Success | Failure(error: SyntaxError) {
    predicate IsFailure() { Failure? }
    function PropagateFailure(): Status { this }
  }

  const MAXSTACK: nat := 250

  /** How many instructions an expression takes at most. */
  function CodeNeed(x: Expr): nat {
    match x
    case Local(_) => 0
    case Neg(y) => CodeNeed(y) + 1
    case And(y, z) => CodeNeed(y) + CodeNeed(z) + 2
    case Or(y, z) => CodeNeed(y) + CodeNeed(z) + 2
    case Rel(_, y, z) => CodeNeed(y) + CodeNeed(z) + 10
  }

  function Max(a: nat, b: nat): nat { if a < b then b else a }

  /** How many temporaries it takes at most, counting the one its value may end in. */
  function RegNeed(x: Expr): (n: nat)
    ensures n >= 1
  {
    match x
    case Local(_) => 1
    case Neg(y) => RegNeed(y)
    case And(y, z) => Max(RegNeed(y), RegNeed(z))
    case Or(y, z) => Max(RegNeed(y), RegNeed(z))
    case Rel(_, y, z) => Max(RegNeed(y), RegNeed(z) + 1)
  }

  function Abs(x: int): nat { if x < 0 then -x else x }

  ghost predicate PendingHere(prog: Program, js: seq<nat>) {
    forall j :: j in js ==> j < |prog| && prog[j] == Go(To(|prog|))
  }

  lemma PendingOver(prog: Program, js: seq<nat>, ks: seq<nat>)
    requires PendingHere(prog, js) && OpenIn(prog, Set(ks))
    ensures forall j :: j in js ==> j !in ks
  {
    forall j | j in js
      ensures j !in ks
    {
      assert j in ks ==> j in Set(ks) && IsOpen(prog, j);
    }
  }

  class FuncState {
    var code: Code
    var jpc: int
    var lasttarget: int
    var freereg: nat
    var nactvar: nat
    var maxstacksize: nat
    ghost var prog: Program
    ghost var pending: seq<nat>  // the list at jpc
    ghost var weak: set<nat>     // the jumps settled in `prog` only

    ghost predicate Valid()
      reads this
    {
      && Refines(code, prog, weak) && Chain(code, jpc, pending)
      && Set(pending) <= weak && PendingHere(prog, pending)
    }

    constructor (params: nat)
      requires params < MAXSTACK
      ensures AtStatement(params) && prog == [] && code == [] && maxstacksize < MAXSTACK
    {
      code, jpc, lasttarget := [], NO_JUMP, NO_JUMP;
      freereg, nactvar, maxstacksize := params, params, if params < 2 then 2 else params;
      prog, pending, weak := [], [], {};
    }

    method FixJump(pc: nat, dest: int) returns (s: Status)
      requires pc < |code| && code[pc].Jmp?
      modifies this`code
      ensures s.Success? <==> Abs(dest - (pc + 1)) <= MAXARG_sBx
      ensures s.Success? ==> code == old(code)[pc := Offset(pc, dest)]
      ensures |code| == |old(code)|
    {
      if Abs(dest - (pc + 1)) > MAXARG_sBx {
        return Failure(ControlTooLong);
      }
      code := code[pc := Offset(pc, dest)];
      s := Success;
    }

    method GetJump(pc: nat) returns (next: int)
      requires pc < |code| && code[pc].Jmp?
      ensures next == Next(code, pc)
      ensures forall dest :: dest != pc && code[pc] == Offset(pc, dest) ==> next == dest
    {
      var offset := code[pc].sbx;
      next := if offset == NO_JUMP then NO_JUMP else pc + 1 + offset;
    }

    /** luaK_concat */
    method Concat(l1: int, l2: int, ghost js: seq<nat>, ghost ks: seq<nat>) returns (s: Status, l: int)
      requires Chain(code, l1, js) && Chain(code, l2, ks) && (forall j :: j in js ==> j !in ks)
      modifies this`code
      ensures s.Success? ==> Chain(code, l, js + ks)
      ensures s.Success? ==> Linked(old(code), code, js)
      ensures |code| == |old(code)|
      ensures |old(code)| < MAXARG_sBx ==> s.Success?
    {
      hide Chain;
      s, l := Success, l1;
      HeadOf(code, l1, js);
      HeadOf(code, l2, ks);
      assert js + [] == js;
      assert [] + ks == ks;
      if l2 == NO_JUMP {
        return;
      } else if l1 == NO_JUMP {
        l := l2;
      } else {
        var list: nat := l1;
        ghost var i := 0;
        assert js[0..] == js;
        var next := GetJump(list);
        NextOf(code, l1, js, i);
        while next != NO_JUMP
          invariant 0 <= i < |js| && list == js[i] && list < |code| && code[list].Jmp? && code == old(code)
          invariant next == Next(code, list) == if i + 1 < |js| then js[i + 1] else NO_JUMP
          decreases |js| - i
        {
          list, i := next, i + 1;
          NextOf(code, l1, js, i);
          next := GetJump(list);
        }
        ChainConcat(code, l1, js, l2, ks);
        s := FixJump(list, l2);
      }
    }

    /** patchtestreg: the test before the jump copies to `reg`, or nothing. */
    method PatchTestReg(node: nat, reg: Reg) returns (copied: bool)
      requires node < |code| && code[node].Jmp?
      modifies this`code
      ensures copied == CopiesAt(old(code), node)
      ensures code == Retest1(old(code), node, reg)
      ensures |code| == |old(code)|
    {
      var control := if node >= 1 && IsTest(code[node - 1]) then node - 1 else node;
      var i := code[control];
      if !i.TestSet? {
        return false;
      }
      if reg != NO_REG && reg != i.b {
        code := code[control := TestSet(reg, i.b, i.cond)];
      } else {
        code := code[control := Test(i.b, i.cond)];
      }
      copied := true;
    }

    /** need_value: some jump of the list leaves without copying the value. */
    method NeedValue(list: int, ghost js: seq<nat>) returns (need: bool)
      requires Chain(code, list, js)
      ensures need <==> exists j :: j in js && !CopiesAt(code, j)
    {
      hide Chain;
      var l := list;
      ghost var i := 0;
      HeadOf(code, list, js);
      while l != NO_JUMP
        invariant 0 <= i <= |js| && l == if i < |js| then js[i] else NO_JUMP
        invariant forall k :: 0 <= k < i ==> CopiesAt(code, js[k])
        decreases |js| - i
      {
        NextOf(code, list, js, i);
        var control := if l >= 1 && IsTest(code[l - 1]) then l - 1 else l;
        if !code[control].TestSet? {
          assert js[i] in js;
          return true;
        }
        l := GetJump(l);
        i := i + 1;
      }
      need := false;
    }

    method RemoveValues(list: int, ghost js: seq<nat>)
      requires Chain(code, list, js)
      modifies this`code
      ensures code == Cleared(old(code), Set(js))
      ensures |code| == |old(code)|
    {
      hide Chain, Cleared;
      var l := list;
      ghost var i, was := 0, code;
      HeadOf(code, list, js);
      ClearedNone(code);
      assert Set(js[..0]) == {};
      while l != NO_JUMP
        invariant 0 <= i <= |js| && l == if i < |js| then js[i] else NO_JUMP
        invariant code == Cleared(was, Set(js[..i]))
        decreases |js| - i
      {
        NextOf(was, list, js, i);
        ClearedJumps(was, Set(js[..i]));
        ClearedStep(was, Set(js[..i]), l);
        SetStep(js, i);
        var _ := PatchTestReg(l, NO_REG);
        ClearedJumps(was, Set(js[..i + 1]));
        l := GetJump(l);
        i := i + 1;
      }
      assert js[..i] == js;
    }

    /** patchlistaux */
    method PatchListAux(list: int, vtarget: int, reg: Reg, dtarget: int, ghost js: seq<nat>) returns (s: Status)
      requires Chain(code, list, js)
      modifies this`code
      ensures s.Success? ==> code == Patched(old(code), Set(js), vtarget, reg, dtarget)
      ensures |code| == |old(code)|
      ensures |old(code)| < MAXARG_sBx && -1 <= vtarget <= |old(code)| && -1 <= dtarget <= |old(code)| ==> s.Success?
    {
      hide Chain, Patched;
      var l := list;
      ghost var i, was := 0, code;
      HeadOf(code, list, js);
      PatchedNone(code, vtarget, reg, dtarget);
      assert Set(js[..0]) == {};
      while l != NO_JUMP
        invariant 0 <= i <= |js| && l == if i < |js| then js[i] else NO_JUMP
        invariant code == Patched(was, Set(js[..i]), vtarget, reg, dtarget)
        decreases |js| - i
      {
        NextOf(was, list, js, i);
        PatchStep(was, list, js, i, vtarget, reg, dtarget);
        var next := GetJump(l);
        var copied := PatchTestReg(l, reg);
        if copied {
          :- FixJump(l, vtarget);
        } else {
          :- FixJump(l, dtarget);
        }
        l := next;
        i := i + 1;
      }
      assert js[..i] == js;
      s := Success;
    }

    /** dischargejpc: the pending jumps get the position they were waiting for. */
    method DischargeJpc() returns (s: Status)
      requires Valid()
      modifies this`code, this`jpc, this`pending, this`weak
      ensures s.Success? ==> Valid() && pending == [] && weak == old(weak) - Set(old(pending))
      ensures s.Success? ==> KeepsOpen(prog, old(code), code)
      ensures s.Success? && old(pending) == [] ==> code == old(code)
      ensures |code| == |old(code)|
      ensures |old(code)| < MAXARG_sBx ==> s.Success?
    {
      hide Refines, Chain, Patched;
      PatchedNone(code, |code|, NO_REG, |code|);
      assert Set([]) == {};
      RefinesDischarged(code, prog, weak, Set(pending));
      KeepsOpenPatched(code, prog, weak, pending, |code|, NO_REG, |code|);
      RefinesLength(code, prog, weak);
      EmptyChain(code);
      :- PatchListAux(jpc, |code|, NO_REG, |code|, pending);
      EmptyChain(code);
      jpc := NO_JUMP;
      weak := weak - Set(pending);
      pending := [];
      s := Success;
    }

    /** luaK_code, for anything but a jump. */
    method Emit(i: Instr) returns (s: Status)
      requires Valid() && !i.Jmp?
      modifies this`code, this`jpc, this`pending, this`weak, this`prog
      ensures s.Success? ==> Valid() && prog == old(prog) + [Do(i)] && pending == []
      ensures s.Success? ==> weak == old(weak) - Set(old(pending)) && KeepsOpen(old(prog), old(code), code)
      ensures s.Success? && old(pending) == [] ==> code == old(code) + [i]
      ensures s.Success? ==> |code| == |old(code)| + 1
      ensures |old(code)| < MAXARG_sBx ==> s.Success?
    {
      hide Refines, Chain;
      :- DischargeJpc();
      HeadOf(code, jpc, pending);
      RefinesLength(code, prog, weak);
      RefinesEmit(code, prog, weak, i);
      KeepsOpenMore(prog, old(code), code, [i]);
      code := code + [i];
      EmptyChain(code);
      prog := prog + [Do(i)];
      s := Success;
    }

    /** luaK_jump: a new open jump; the pending ones are held in its list. */
    method Jump() returns (s: Status, j: nat)
      requires Valid()
      modifies this`code, this`jpc, this`pending, this`prog
      ensures s.Success? ==> Valid() && prog == old(prog) + [Go(Open)] && pending == [] && j == |old(prog)|
      ensures s.Success? ==> Chain(code, j, [j] + old(pending)) && KeepsOpen(old(prog), old(code), code)
      ensures s.Success? ==> |code| == |old(code)| + 1
      ensures |old(code)| + 1 < MAXARG_sBx ==> s.Success?
    {
      hide Refines, Chain;
      j := 0;
      RefinesLength(code, prog, weak);
      RefinesJump(code, prog, weak);
      KeepsOpenMore(prog, code, code, [Jmp(NO_JUMP)]);
      var held := jpc;
      jpc := NO_JUMP;
      code := code + [Jmp(NO_JUMP)];
      prog := prog + [Go(Open)];
      ChainMore(old(code), [Jmp(NO_JUMP)], held, pending);
      j := |code| - 1;
      ChainOne(code, j);
      var l;
      l :- Concat(j, held, [j], pending);
      LinkedRefines(old(code) + [Jmp(NO_JUMP)], code, prog, weak, [j]);
      LinkedKeepsOpen(old(prog), old(code), old(code) + [Jmp(NO_JUMP)], code, [j]);
      pending := [];
      EmptyChain(code);
      HeadOf(code, l, [j] + old(pending));
      s := Success;
    }

    /** condjump */
    method CondJump(i: Instr) returns (s: Status, j: nat)
      requires Valid() && IsTest(i)
      modifies this`code, this`jpc, this`pending, this`weak, this`prog
      ensures s.Success? ==> Valid() && prog == old(prog) + [Do(i), Go(Open)] && pending == []
      ensures s.Success? ==> j == |old(prog)| + 1 && Chain(code, j, [j])
      ensures s.Success? ==> weak == old(weak) - Set(old(pending)) && KeepsOpen(old(prog), old(code), code)
      ensures s.Success? ==> |code| == |old(code)| + 2
      ensures |old(code)| + 2 < MAXARG_sBx ==> s.Success?
    {
      hide Refines, Chain;
      j := 0;
      :- Emit(i);
      ghost var mid := code;
      j :- Jump();
      KeepsOpenTrans(old(prog), old(prog) + [Do(i)], old(code), mid, code);
      assert [j] + [] == [j];
      s := Success;
    }

    /** luaK_getlabel: no optimisation across this position. */
    method GetLabel() returns (pc: nat)
      modifies this`lasttarget
      ensures pc == |code|
    {
      lasttarget := |code|;
      pc := |code|;
    }

    /** luaK_patchtohere: the jumps of the list wait for the next instruction. */
    method PatchToHere(list: int, ghost js: seq<nat>) returns (s: Status)
      requires Valid() && Chain(code, list, js) && Loose(prog, weak, js) && (forall j :: j in js ==> j !in pending)
      modifies this`code, this`jpc, this`lasttarget, this`pending, this`weak, this`prog
      ensures s.Success? ==> Valid() && prog == Closed(old(prog), Set(js), |old(prog)|)
      ensures s.Success? ==> pending == old(pending) + js && weak == old(weak) + Set(js)
      ensures s.Success? ==> KeepsOpen(prog, old(code), code)
      ensures |code| == |old(code)|
      ensures |old(code)| < MAXARG_sBx ==> s.Success?
    {
      hide Refines, Chain;
      RefinesLength(code, prog, weak);
      RefinesClosed(code, prog, weak, Set(js));
      ClosedHere(prog, weak, pending, js);
      var _ := GetLabel();
      ghost var closed := Closed(prog, Set(js), |prog|);
      var l;
      l :- Concat(jpc, list, pending, js);
      jpc := l;
      LinkedRefines(old(code), code, closed, weak + Set(js), pending);
      KeepsOpenSelf(closed, old(code));
      LinkedKeepsOpen(closed, old(code), old(code), code, pending);
      prog, pending, weak := closed, pending + js, weak + Set(js);
      s := Success;
    }

    /** luaK_concat on lists whose jumps are open. */
    method ConcatOpen(l1: int, l2: int, ghost js: seq<nat>, ghost ks: seq<nat>) returns (s: Status, l: int)
      requires Valid() && Chain(code, l1, js) && Chain(code, l2, ks) && (forall j :: j in js ==> j !in ks)
      requires OpenIn(prog, Set(js))
      modifies this`code
      ensures s.Success? ==> Valid() && Chain(code, l, js + ks) && Linked(old(code), code, js)
      ensures |code| == |old(code)|
      ensures |old(code)| < MAXARG_sBx ==> s.Success?
    {
      hide Refines, Chain;
      l :- Concat(l1, l2, js, ks);
      OpenLoose(prog, weak, js);
      LinkedRefines(old(code), code, prog, weak, js);
      PendingOver(prog, pending, js);
      ChainLinked(old(code), code, jpc, pending, js);
      s := Success;
    }

    /** removevalues on a list of open jumps. */
    method RemoveOpen(list: int, ghost js: seq<nat>)
      requires Valid() && Chain(code, list, js) && OpenIn(prog, Set(js))
      modifies this`code, this`prog
      ensures Valid() && prog == Retest(old(prog), Set(js)) && SameJumps(old(code), code)
      ensures |code| == |old(code)|
    {
      hide Refines, Chain;
      OpenLoose(prog, weak, js);
      RefinesCleared(code, prog, weak, Set(js));
      ClearedJumps(code, Set(js));
      RetestPending(prog, Set(js), pending);
      RemoveValues(list, js);
      prog := Retest(prog, Set(js));
      ChainSameJumps(old(code), code, jpc, pending);
    }

    /** luaK_reserveregs, with luaK_checkstack. */
    method ReserveRegs(n: nat) returns (s: Status)
      modifies this`freereg, this`maxstacksize
      ensures s.Success? ==> freereg == old(freereg) + n
      ensures s.Success? && old(maxstacksize) < MAXSTACK ==> freereg <= maxstacksize < MAXSTACK
      ensures old(freereg) + n < MAXSTACK ==> s.Success?
    {
      var newstack := freereg + n;
      if newstack > maxstacksize {
        if newstack >= MAXSTACK {
          return Failure(TooComplex);
        }
        maxstacksize := newstack;
      }
      freereg := freereg + n;
      s := Success;
    }

    method FreeReg(reg: nat)
      requires reg >= nactvar ==> freereg > 0
      modifies this`freereg
      ensures freereg == if reg >= nactvar then old(freereg) - 1 else old(freereg)
    {
      if reg >= nactvar {
        freereg := freereg - 1;
      }
    }

    method FreeExp(e: ExpDesc)
      requires e.k.VNonReloc? && e.info >= nactvar ==> freereg > 0
      modifies this`freereg
      ensures freereg == if e.k.VNonReloc? && e.info >= nactvar then old(freereg) - 1 else old(freereg)
    {
      if e.k.VNonReloc? {
        FreeReg(e.info);
      }
    }

    /** The code since `p0` computes `x` as the descriptor says; what came before
        is as it was. */
    ghost predicate Built(p0: Program, c0: Code, e: ExpDesc, ts: seq<nat>, fs: seq<nat>, x: Expr, base: nat)
      reads this
    {
      Coded(p0, c0, e, ts, fs, x, base) && Located(e, nactvar, freereg, base)
    }

    ghost predicate Coded(p0: Program, c0: Code, e: ExpDesc, ts: seq<nat>, fs: seq<nat>, x: Expr, base: nat)
      reads this
    {
      && Settled0(p0, c0) && Lists(prog, code, |p0|, e, ts, fs)
      && Means(prog, |p0|, e.k, e.info, Set(ts), Set(fs), x, base)
      && (e.k.VReloc? || e.k.VJmp? ==> pending == [])
    }

    /** Between operations: only pending jumps are weak, the code before `p0`
        is as it was, and what is pending came since. */
    ghost predicate Settled0(p0: Program, c0: Code)
      reads this
    {
      && Valid() && weak == Set(pending) && Roomy()
      && p0 <= prog && KeepsOpen(p0, c0, code) && Ended(p0) && Ended(prog)
      && (|prog| == |p0| || Since(pending, |p0|))
    }

    ghost predicate Roomy()
      reads this
    {
      nactvar <= freereg <= maxstacksize < MAXSTACK
    }

    /** The value is in `reg`, but for the jumps of the lists. */
    ghost predicate Loaded(p0: Program, c0: Code, e: ExpDesc, ts: seq<nat>, fs: seq<nat>, reg: Reg, x: Expr, base: nat)
      reads this
    {
      && Settled0(p0, c0) && Lists(prog, code, |p0|, e, ts, fs)
      && Held(prog, |p0|, reg, Set(ts), Set(fs), x, base)
    }

    /** The value is in `reg`. */
    ghost predicate Finished(p0: Program, c0: Code, reg: Reg, x: Expr, base: nat)
      reads this
    {
      Settled0(p0, c0) && Stored(prog, |p0|, reg, x, base)
    }

    /** discharge2reg, for a value that is in a register or waits for one. */
    method Discharge2Reg(e: ExpDesc, reg: Reg, ghost p0: Program, ghost c0: Code, ghost ts: seq<nat>, ghost fs: seq<nat>,
                         ghost x: Expr, ghost base: nat) returns (s: Status, e': ExpDesc)
      requires Coded(p0, c0, e, ts, fs, x, base) && !e.k.VJmp?
      modifies this`code, this`jpc, this`pending, this`weak, this`prog
      ensures s.Success? ==> e' == e.(k := VNonReloc, info := reg) && Loaded(p0, c0, e', ts, fs, reg, x, base)
      ensures s.Success? && e.k.VReloc? ==> |code| == |old(code)| && prog == RelocatedIf(old(prog), e.info, reg) && pending == []
      ensures s.Success? ==> |code| <= |old(code)| + 1
      ensures |old(code)| < MAXARG_sBx ==> s.Success?
      ensures e.k.VReloc? ==> s.Success?
    {
      hide Refines, Chain, Lists, Means, KeepsOpen, Located;
      e' := e.(k := VNonReloc, info := reg);
      BuiltShape(prog, code, |p0|, e, ts, fs, x, base);
      if e.k.VReloc? {
        ReplaceNot(code, prog, weak, e.info, reg);
        RelocatedHeld(prog, |p0|, e.info, Set(ts), Set(fs), x, base, reg);
        ReplacedLists(p0, c0, code, prog, e, e', ts, fs, e.info, Not(reg, code[e.info].b), Do(Not(reg, code[e.info].b)));
        HeadOf(code, jpc, pending);
        code := code[e.info := Not(reg, code[e.info].b)];
        prog := Relocated(prog, e.info, reg);
        EmptyChain(code);
      } else {
        MovedHeld(prog, |p0|, e.k, e.info, Set(ts), Set(fs), x, base, reg);
        if reg != e.info {
          ghost var c1, p1 := code, prog;
          :- Emit(Move(reg, e.info));
          OuterOn(p0, p1, c0, c1, code);
          ListsOn(p1, prog, c1, code, |p0|, e, e', ts, fs);
        } else {
          RefinesLength(code, prog, weak);
          KeepsOpenSelf(prog, code);
          ListsOn(prog, prog, code, code, |p0|, e, e', ts, fs);
        }
      }
      s := Success;
    }

    /** discharge2anyreg */
    method Discharge2AnyReg(e: ExpDesc, ghost p0: Program, ghost c0: Code, ghost ts: seq<nat>, ghost fs: seq<nat>,
                            ghost x: Expr, ghost base: nat) returns (s: Status, e': ExpDesc)
      requires Built(p0, c0, e, ts, fs, x, base) && (e.k.VNonReloc? || e.k.VReloc?)
      modifies this`code, this`jpc, this`pending, this`weak, this`prog, this`freereg, this`maxstacksize
      ensures s.Success? ==> Built(p0, c0, e', ts, fs, x, base) && e'.k.VNonReloc?
      ensures s.Success? ==> e'.t == e.t && e'.f == e.f && |prog| == |old(prog)|
      ensures s.Success? ==> |code| == |old(code)|
      ensures base + 1 < MAXSTACK ==> s.Success?
    {
      hide Refines, Chain, Lists, Means, KeepsOpen, Held;
      e' := e;
      if !e.k.VNonReloc? {
        BuiltShape(prog, code, |p0|, e, ts, fs, x, base);
        RelocatedMeans(prog, |p0|, e.info, Set(ts), Set(fs), x, base, freereg);
        :- ReserveRegs(1);
        e' :- Discharge2Reg(e, freereg - 1, p0, c0, ts, fs, x, base);
      }
      s := Success;
    }

    /** code_label */
    method CodeLabel(a: Reg, v: bool, skip: bool) returns (s: Status, pc: nat)
      requires Valid()
      modifies this`code, this`jpc, this`lasttarget, this`pending, this`weak, this`prog
      ensures s.Success? ==> Valid() && prog == old(prog) + [Do(LoadBool(a, v, skip))] && pending == []
      ensures s.Success? ==> weak == old(weak) - Set(old(pending)) && KeepsOpen(old(prog), old(code), code)
      ensures s.Success? && old(pending) == [] ==> code == old(code) + [LoadBool(a, v, skip)]
      ensures s.Success? ==> pc == |old(prog)|
      ensures s.Success? ==> |code| == |old(code)| + 1
      ensures |old(code)| < MAXARG_sBx ==> s.Success?
    {
      hide Refines, Chain;
      RefinesLength(code, prog, weak);
      pc := GetLabel();
      :- Emit(LoadBool(a, v, skip));
      s := Success;
    }

    /** The labels of exp2reg behind a value that goes round them. */
    method RoundLabels(d: ExpDesc, reg: Reg, ghost p0: Program, ghost c0: Code, ghost ts: seq<nat>, ghost fs: seq<nat>,
                       ghost x: Expr, ghost base: nat) returns (s: Status, pf: nat, pt: nat)
      requires Loaded(p0, c0, d, ts, fs, reg, x, base) && !d.k.VJmp? && |prog| > |p0|
      modifies this`code, this`jpc, this`lasttarget, this`pending, this`weak, this`prog
      ensures s.Success? ==> Loaded(p0, c0, d, ts, fs, reg, x, base)
      ensures s.Success? ==> Loads(prog, pf, reg, false) && Loads(prog, pt, reg, true) && pt == pf + 1
      ensures s.Success? ==> |code| == |old(code)| + 3 && pf < |code| && pt < |code|
      ensures |old(code)| + 3 < MAXARG_sBx ==> s.Success?
    {
      hide Refines, Chain, Lists, Held, KeepsOpen, Labels, Closed, Loads, Ended, PendingHere, Since;
      pf, pt := 0, 0;
      var fj;
      ghost var p1, c1, js := prog, code, pending;
      fj :- Jump();
      ghost var c2, held := code, [|p1|] + js;
      pf :- CodeLabel(reg, false, true);
      pt :- CodeLabel(reg, true, false);
      ChainMore(c2, [LoadBool(reg, false, true), LoadBool(reg, true, false)], fj, held);
      assert code == c2 + [LoadBool(reg, false, true), LoadBool(reg, true, false)];
      LabelsEmitted(p1 + [Go(Open)], reg);
      HeldLoose(p1, prog, weak, js);
      ghost var c3, p3 := code, prog;
      :- PatchToHere(fj, held);
      RoundLabelsHeld(p1, |p0|, reg, Set(ts), Set(fs), x, base) by { ListsBound(p1, c1, |p0|, d, ts, fs); }
      RoundShortened(p1, c1, js, reg);
      ShortenedHeld(p1 + [Go(To(|p1| + 3))] + Labels(reg), prog, Set(js), |p1|, |p0|, reg, Set(ts), Set(fs), x, base);
      RoundLists(p0, c0, p1, c1, c2, c3, code, d, ts, fs, js, reg);
      RoundLoads(p1, js, reg);
      HeldWeak(js, |p1|);
      s := Success;
    }

    /** The labels of exp2reg behind a comparison, whose jump joins the true list. */
    method JumpLabels(e: ExpDesc, reg: Reg, ghost p0: Program, ghost c0: Code, ghost ts: seq<nat>, ghost fs: seq<nat>,
                      ghost x: Expr, ghost base: nat) returns (s: Status, t: int, pf: nat, pt: nat)
      requires Coded(p0, c0, e, ts, fs, x, base) && e.k.VJmp? && pending == []
      modifies this`code, this`jpc, this`lasttarget, this`pending, this`weak, this`prog
      ensures s.Success? ==> Loaded(p0, c0, ExpDesc(VNonReloc, reg, t, e.f), ts + [e.info], fs, reg, x, base)
      ensures s.Success? ==> Loads(prog, pf, reg, false) && Loads(prog, pt, reg, true) && pt == pf + 1
      ensures s.Success? ==> |code| == |old(code)| + 2 && pf < |code| && pt < |code|
      ensures |old(code)| + 2 < MAXARG_sBx ==> s.Success?
    {
      hide Refines, Chain, Lists, Means, Held, KeepsOpen, Labels, Closed, Loads, Ended, PendingHere, Since;
      t, pf, pt := NO_JUMP, 0, 0;
      ghost var p1, c1, js := prog, code, ts + [e.info];
      BuiltShape(p1, c1, |p0|, e, ts, fs, x, base);
      ListsParts(p1, c1, |p0|, e, ts, fs);
      t :- ConcatOpen(e.t, e.info, ts, [e.info]);
      ghost var c2 := code;
      JoinLists(p0, c0, p1, c1, c2, e, ts, fs, t, reg);
      pf :- CodeLabel(reg, false, true);
      pt :- CodeLabel(reg, true, false);
      LabelsEmitted(p1, reg);
      LabelsLoad(p1, reg);
      JumpLabelsHeld(p1, |p0|, e.info, reg, Set(ts), Set(fs), x, base);
      SetJoin(ts, e.info);
      ListsMore(p0, c0, p1, p1 + Labels(reg), c2, code, ExpDesc(VNonReloc, reg, t, e.f), js, fs);
      LabelsEnd(p1, reg);
      SinceNone(|p0|);
      ghost var p2, c3 := prog, code;
      EmptyChain(code);
      LooseNone(prog, weak);
      :- PatchToHere(NO_JUMP, []);
      ClosedNone(p2);
      RefinesLength(code, prog, weak);
      ListsOn(p2, prog, c3, code, |p0|, ExpDesc(VNonReloc, reg, t, e.f), ExpDesc(VNonReloc, reg, t, e.f), js, fs);
      OuterOn(p0, p2, c0, c3, code);
      s := Success;
    }

    /** The end of exp2reg: every jump of both lists is sent on with the value. */
    method PatchLists(d: ExpDesc, reg: Reg, pf: int, pt: int, ghost p0: Program, ghost c0: Code,
                      ghost ts: seq<nat>, ghost fs: seq<nat>, ghost x: Expr, ghost base: nat) returns (s: Status)
      requires Loaded(p0, c0, d, ts, fs, reg, x, base) && !d.k.VJmp? && reg != NO_REG
      requires Labelled(prog, Set(ts), true, reg, Nat(pf), Nat(pt)) && Labelled(prog, Set(fs), false, reg, Nat(pf), Nat(pt))
      requires pf < 0 || pt < 0 ==> AllCopy(prog, Set(ts)) && AllCopy(prog, Set(fs))
      modifies this`code, this`lasttarget, this`prog
      ensures s.Success? ==> Finished(p0, c0, reg, x, base)
      ensures |code| == |old(code)|
      ensures |old(code)| < MAXARG_sBx && -1 <= pf <= |old(code)| && -1 <= pt <= |old(code)| ==> s.Success?
    {
      hide Refines, Chain, Lists, Held, Stored, KeepsOpen, Sent, Patched, Ended, PendingHere, Since, Labelled, AllCopy;
      ListsParts(prog, code, |p0|, d, ts, fs);
      ListsBound(prog, code, |p0|, d, ts, fs);
      RefinesLength(code, prog, weak);
      RefinesSent(code, prog, weak, Set(ts), Set(fs), reg, Nat(pf), Nat(pt));
      SentStored(prog, |p0|, reg, Set(ts), Set(fs), x, base, Nat(pf), Nat(pt));
      SentAround(p0, c0, code, prog, weak, ts, fs, reg, Nat(pf), Nat(pt), pending);
      if pf < 0 || pt < 0 { CopiesPatched(code, prog, weak, ts, fs, |code|, reg, pf, pt); }
      PatchedChain(code, d.f, fs, d.t, ts, |code|, reg, pf);
      PatchedPending(code, jpc, pending, ts, fs, |code|, reg, Nat(pf), Nat(pt));
      ghost var c1 := code;
      var final := GetLabel();
      :- PatchListAux(d.f, final, reg, pf, fs);
      :- PatchListAux(d.t, final, reg, pt, ts);
      prog := Sent(prog, Set(ts), Set(fs), reg, Nat(pf), Nat(pt));
      s := Success;
    }

    /** exp2reg */
    method Exp2Reg(e: ExpDesc, reg: Reg, ghost p0: Program, ghost c0: Code, ghost ts: seq<nat>, ghost fs: seq<nat>,
                   ghost x: Expr, ghost base: nat) returns (s: Status, e': ExpDesc)
      requires Coded(p0, c0, e, ts, fs, x, base) && (e.k.VJmp? ==> pending == []) && reg != NO_REG
      modifies this`code, this`jpc, this`lasttarget, this`pending, this`weak, this`prog
      ensures s.Success? ==> e' == ExpDesc(VNonReloc, reg, NO_JUMP, NO_JUMP) && Finished(p0, c0, reg, x, base)
      ensures s.Success? ==> |code| <= |old(code)| + 4
      ensures |old(code)| + 4 < MAXARG_sBx ==> s.Success?
    {
      hide Refines, Chain, Lists, Means, Held, Stored, KeepsOpen, Labelled, AllCopy, Loads;
      e' := ExpDesc(VNonReloc, reg, NO_JUMP, NO_JUMP);
      if e.k.VJmp? {
        var t, pf, pt;
        t, pf, pt :- JumpLabels(e, reg, p0, c0, ts, fs, x, base);
        LoadsLabelled(prog, code, |p0|, ExpDesc(VNonReloc, reg, t, e.f), ts + [e.info], fs, reg, pf, pt);
        :- PatchLists(ExpDesc(VNonReloc, reg, t, e.f), reg, pf, pt, p0, c0, ts + [e.info], fs, x, base);
      } else {
        var d;
        d :- Discharge2Reg(e, reg, p0, c0, ts, fs, x, base);
        ListsParts(prog, code, |p0|, d, ts, fs);
        ListsHeads(prog, code, |p0|, d, ts, fs);
        if d.t != d.f {
          var need := NeedValue(d.t, ts);
          if !need {
            need := NeedValue(d.f, fs);
          }
          var pf, pt := NO_JUMP, NO_JUMP;
          if need {
            pf, pt :- RoundLabels(d, reg, p0, c0, ts, fs, x, base);
            LoadsLabelled(prog, code, |p0|, d, ts, fs, reg, pf, pt);
          } else {
            AllCopyIn(code, prog, weak, |p0|, d, ts, fs, reg);
          }
          :- PatchLists(d, reg, pf, pt, p0, c0, ts, fs, x, base);
        } else {
          HeldStored(prog, |p0|, reg, x, base);
        }
      }
      s := Success;
    }

    /** luaK_dischargevars: of the kinds modelled only a local variable changes. */
    method DischargeVars(e: ExpDesc, ghost p0: Program, ghost c0: Code, ghost ts: seq<nat>, ghost fs: seq<nat>,
                         ghost x: Expr, ghost base: nat) returns (e': ExpDesc)
      requires Built(p0, c0, e, ts, fs, x, base)
      ensures Built(p0, c0, e', ts, fs, x, base)
      ensures e' == if e.k.VLocal? then e.(k := VNonReloc) else e
    {
      hide Refines, Chain, Means, KeepsOpen, OpenIn;
      e' := e;
      if e.k.VLocal? {
        DischargedMeans(prog, |p0|, e.info, Set(ts), Set(fs), x, base);
        e' := e.(k := VNonReloc);
      }
    }

    /** luaK_exp2nextreg */
    method Exp2NextReg(e: ExpDesc, ghost p0: Program, ghost c0: Code, ghost ts: seq<nat>, ghost fs: seq<nat>,
                       ghost x: Expr, ghost base: nat) returns (s: Status, e': ExpDesc)
      requires Built(p0, c0, e, ts, fs, x, base)
      modifies this`code, this`jpc, this`lasttarget, this`pending, this`weak, this`prog, this`freereg, this`maxstacksize
      ensures s.Success? ==> base < 256 && Finished(p0, c0, base, x, base) && freereg == base + 1
      ensures s.Success? ==> e' == ExpDesc(VNonReloc, base, NO_JUMP, NO_JUMP)
      ensures s.Success? ==> |code| <= |old(code)| + 4
      ensures |old(code)| + 4 < MAXARG_sBx && base + 1 < MAXSTACK ==> s.Success?
    {
      hide Refines, Chain, Lists, Means, Stored, KeepsOpen;
      e' := DischargeVars(e, p0, c0, ts, fs, x, base);
      FreeExp(e');
      assert freereg == base;
      :- ReserveRegs(1);
      e' :- Exp2Reg(e', freereg - 1, p0, c0, ts, fs, x, base);
      s := Success;
    }

    /** luaK_exp2anyreg */
    method Exp2AnyReg(e: ExpDesc, ghost p0: Program, ghost c0: Code, ghost ts: seq<nat>, ghost fs: seq<nat>,
                      ghost x: Expr, ghost base: nat) returns (s: Status, e': ExpDesc)
      requires Built(p0, c0, e, ts, fs, x, base)
      modifies this`code, this`jpc, this`lasttarget, this`pending, this`weak, this`prog, this`freereg, this`maxstacksize
      ensures s.Success? ==> Built(p0, c0, e', [], [], x, base) && e'.k.VNonReloc? && e'.t == e'.f == NO_JUMP
      ensures s.Success? ==> |code| <= |old(code)| + 4
      ensures |old(code)| + 4 < MAXARG_sBx && base + 1 < MAXSTACK ==> s.Success?
      ensures (e.k.VNonReloc? || e.k.VLocal?) && e.t == e.f ==> s.Success? && |code| == |old(code)|
    {
      hide Refines, Chain, Lists, Means, Stored, KeepsOpen;
      e' := DischargeVars(e, p0, c0, ts, fs, x, base);
      if e'.k.VNonReloc? {
        if e'.t == e'.f {
          ListsHeads(prog, code, |p0|, e', ts, fs);
          ListsParts(prog, code, |p0|, e', ts, fs);
          HeadOf(code, e'.t, ts);
          return Success, e';
        }
        if e'.info >= nactvar {
          e' :- Exp2Reg(e', e'.info, p0, c0, ts, fs, x, base);
          FinishedBuilt(prog, code, |p0|, e'.info, x, base);
          return Success, e';
        }
      }
      e' :- Exp2NextReg(e', p0, c0, ts, fs, x, base);
      FinishedBuilt(prog, code, |p0|, e'.info, x, base);
      s := Success;
    }

    /** luaK_exp2RK, no operand being a constant. */
    method Exp2RK(e: ExpDesc, ghost p0: Program, ghost c0: Code, ghost ts: seq<nat>, ghost fs: seq<nat>,
                  ghost x: Expr, ghost base: nat) returns (s: Status, e': ExpDesc)
      requires Built(p0, c0, e, ts, fs, x, base)
      modifies this`code, this`jpc, this`lasttarget, this`pending, this`weak, this`prog, this`freereg, this`maxstacksize
      ensures s.Success? ==> Built(p0, c0, e', [], [], x, base) && e'.k.VNonReloc? && e'.t == e'.f == NO_JUMP
      ensures s.Success? ==> |code| <= |old(code)| + 4
      ensures |old(code)| + 4 < MAXARG_sBx && base + 1 < MAXSTACK ==> s.Success?
    {
      if e.t != e.f {
        e' :- Exp2AnyReg(e, p0, c0, ts, fs, x, base);
        e' :- Exp2AnyReg(e', p0, c0, [], [], x, base);
      } else {
        e' := DischargeVars(e, p0, c0, ts, fs, x, base);
        e' :- Exp2AnyReg(e', p0, c0, ts, fs, x, base);
      }
      s := Success;
    }

    /** The test of `x` is there, its jump `j` not yet in the list it belongs to. */
    ghost predicate Branched(p0: Program, c0: Code, t: int, f: int, j: nat, ts: seq<nat>, fs: seq<nat>,
                             x: Expr, base: nat, sense: bool)
      reads this
    {
      && Settled0(p0, c0) && Lists(prog, code, |p0|, ExpDesc(VJmp, j, t, f), ts, fs)
      && IsOpen(prog, j) && j >= |p0|
      && Branches(prog, |p0|, if sense then Set(ts) else Set(ts) + {j}, if sense then Set(fs) + {j} else Set(fs),
                  x, base, sense)
    }

    /** The code goes on just when `x` is true (false) and else leaves by the list. */
    ghost predicate Conditional(p0: Program, c0: Code, head: int, js: seq<nat>, x: Expr, base: nat, sense: bool)
      reads this
    {
      && Settled0(p0, c0) && Chain(code, head, js) && OpenIn(prog, Set(js)) && Since(js, |p0|)
      && Branches(prog, |p0|, if sense then {} else Set(js), if sense then Set(js) else {}, x, base, sense)
    }

    method InvertJump(e: ExpDesc, ghost p0: Program, ghost c0: Code, ghost ts: seq<nat>, ghost fs: seq<nat>,
                      ghost x: Expr, ghost base: nat)
      requires Coded(p0, c0, e, ts, fs, x, base) && e.k.VJmp? && pending == []
      modifies this`code, this`prog
      ensures Settled0(p0, c0) && Lists(prog, code, |p0|, e, ts, fs)
      ensures e.info == |old(prog)| - 1 && e.info > |p0| && IsOpen(prog, e.info)
      ensures old(prog)[e.info - 1].Do? && old(prog)[e.info - 1].i.Cmp? && prog == Inverted(old(prog), e.info - 1)
      ensures |code| == |old(code)|
    {
      hide Refines, Chain, Lists, Means, KeepsOpen;
      BuiltShape(prog, code, |p0|, e, ts, fs, x, base);
      var pc := e.info - 1;
      ReplaceCmp(code, prog, weak, pc);
      InvertedLists(p0, c0, code, prog, e, ts, fs);
      HeadOf(code, jpc, pending);
      var i := code[pc];
      code := code[pc := Cmp(i.op, !i.cond, i.b, i.c)];
      prog := Inverted(prog, pc);
      EmptyChain(code);
    }

    /** jumponcond */
    method JumpOnCond(e: ExpDesc, cond: bool, ghost p0: Program, ghost c0: Code, ghost ts: seq<nat>, ghost fs: seq<nat>,
                      ghost x: Expr, ghost base: nat) returns (s: Status, j: nat)
      requires Built(p0, c0, e, ts, fs, x, base) && (e.k.VReloc? || e.k.VNonReloc?)
      modifies this`code, this`jpc, this`pending, this`weak, this`prog, this`freereg, this`maxstacksize
      ensures s.Success? ==> Branched(p0, c0, e.t, e.f, j, ts, fs, x, base, !cond) && freereg == base
      ensures s.Success? ==> pending == []
      ensures s.Success? ==> |code| <= |old(code)| + 2
      ensures |old(code)| + 2 < MAXARG_sBx && base + 1 < MAXSTACK ==> s.Success?
    {
      hide Refines, Chain, Lists, Means, Branches, KeepsOpen;
      j := 0;
      BuiltShape(prog, code, |p0|, e, ts, fs, x, base);
      ghost var p1, c1 := prog, code;
      if e.k.VReloc? {
        NotThere(code, prog, weak, e.info);
        var ie := code[e.info];
        NotBranches(prog, |p0|, e.info, Set(ts), Set(fs), x, base, !cond);
        DroppedLists(p0, c0, code, prog, e, ts, fs);
        RefinesDropped(code, prog, e.info);
        HeadOf(code, jpc, pending);
        code := code[..|code| - 1];
        prog := prog[..|prog| - 1];
        EmptyChain(code);
        ghost var c2, p2 := code, prog;
        j :- CondJump(Test(ie.b, !cond));
        OuterOn(p0, p2, c0, c2, code);
        ListsTested(p2, prog, c2, code, |p0|, e, ts, fs, j);
      } else {
        RegBranches(prog, |p0|, e.k, e.info, Set(ts), Set(fs), x, base, !cond);
        FreeExp(e);
        j :- CondJump(TestSet(NO_REG, e.info, cond));
        OuterOn(p0, p1, c0, c1, code);
        ListsTested(p1, prog, c1, code, |p0|, e, ts, fs, j);
      }
      s := Success;
    }

    /** The end of luaK_goiftrue and luaK_goiffalse: the jump joins the list it
        belongs to, and the jumps of the other list come here. */
    method JoinAndClose(l1: int, pc: nat, l2: int, ghost p0: Program, ghost c0: Code,
                        ghost keep: seq<nat>, ghost close: seq<nat>) returns (s: Status, l: int)
      requires Settled0(p0, c0) && Joinable(prog, code, |p0|, l1, keep, pc, l2, close) && pending == []
      modifies this`code, this`jpc, this`lasttarget, this`pending, this`weak, this`prog
      ensures s.Success? ==> Settled0(p0, c0) && Chain(code, l, keep + [pc]) && OpenIn(prog, Set(keep + [pc]))
      ensures s.Success? ==> prog == Closed(old(prog), Set(close), |old(prog)|) && |prog| > |p0|
      ensures |code| == |old(code)|
      ensures |old(code)| < MAXARG_sBx ==> s.Success?
    {
      hide Refines, Chain, KeepsOpen, Closed, PendingHere, Ended, OpenIn, Since, Linked, Loose, Joinable;
      l := NO_JUMP;
      ghost var p1, c1 := prog, code;
      JoinParts(p1, c1, |p0|, l1, keep, pc, l2, close);
      l :- ConcatOpen(l1, pc, keep, [pc]);
      ghost var c2 := code;
      ChainLinked(c1, c2, l2, close, keep);
      OpenLoose(p1, weak, close);
      RefinesLength(code, prog, weak);
      LinkedOuter(p0, c0, c1, c2, keep);
      ClosedFrame(p0, p1, close, keep + [pc]);
      :- PatchToHere(l2, close);
      ChainOpen(prog, c2, code, l, keep + [pc]);
      OuterOn(p0, prog, c0, c2, code);
      NonePlus(close);
      s := Success;
    }

    /** luaK_goiftrue */
    method GoIfTrue(e: ExpDesc, ghost p0: Program, ghost c0: Code, ghost ts: seq<nat>, ghost fs: seq<nat>,
                    ghost x: Expr, ghost base: nat) returns (s: Status, f: int, ghost js: seq<nat>)
      requires Built(p0, c0, e, ts, fs, x, base)
      modifies this`code, this`jpc, this`lasttarget, this`pending, this`weak, this`prog, this`freereg, this`maxstacksize
      ensures s.Success? ==> Conditional(p0, c0, f, js, x, base, true) && freereg == base && |prog| > |p0|
      ensures s.Success? ==> |code| <= |old(code)| + 2
      ensures |old(code)| + 2 < MAXARG_sBx && base + 1 < MAXSTACK ==> s.Success?
    {
      hide Refines, Chain, Lists, Means, Branches, KeepsOpen;
      f, js := NO_JUMP, [];
      var pc: nat;
      var e1 := DischargeVars(e, p0, c0, ts, fs, x, base);
      if e1.k.VJmp? {
        BuiltShape(prog, code, |p0|, e1, ts, fs, x, base);
        ListsParts(prog, code, |p0|, e1, ts, fs);
        InvertedBranches(prog, |p0|, e1.info, Set(ts), Set(fs), x, base);
        InvertJump(e1, p0, c0, ts, fs, x, base);
        pc := e1.info;
      } else {
        pc :- JumpOnCond(e1, false, p0, c0, ts, fs, x, base);
      }
      js := fs + [pc];
      BranchedJoin(prog, code, |p0|, e1.t, e1.f, pc, ts, fs, x, base, true);
      f :- JoinAndClose(e1.f, pc, e1.t, p0, c0, fs, ts);
      s := Success;
    }

    /** luaK_goiffalse */
    method GoIfFalse(e: ExpDesc, ghost p0: Program, ghost c0: Code, ghost ts: seq<nat>, ghost fs: seq<nat>,
                     ghost x: Expr, ghost base: nat) returns (s: Status, t: int, ghost js: seq<nat>)
      requires Built(p0, c0, e, ts, fs, x, base)
      modifies this`code, this`jpc, this`lasttarget, this`pending, this`weak, this`prog, this`freereg, this`maxstacksize
      ensures s.Success? ==> Conditional(p0, c0, t, js, x, base, false) && freereg == base && |prog| > |p0|
      ensures s.Success? ==> |code| <= |old(code)| + 2
      ensures |old(code)| + 2 < MAXARG_sBx && base + 1 < MAXSTACK ==> s.Success?
    {
      hide Refines, Chain, Lists, Means, Branches, KeepsOpen;
      t, js := NO_JUMP, [];
      var pc: nat;
      var e1 := DischargeVars(e, p0, c0, ts, fs, x, base);
      if e1.k.VJmp? {
        BuiltShape(prog, code, |p0|, e1, ts, fs, x, base);
        ListsParts(prog, code, |p0|, e1, ts, fs);
        JumpBranches(prog, |p0|, e1.info, Set(ts), Set(fs), x, base);
        pc := e1.info;
      } else {
        pc :- JumpOnCond(e1, true, p0, c0, ts, fs, x, base);
      }
      js := ts + [pc];
      BranchedJoin(prog, code, |p0|, e1.t, e1.f, pc, ts, fs, x, base, false);
      t :- JoinAndClose(e1.t, pc, e1.f, p0, c0, ts, fs);
      s := Success;
    }

    /** The end of codenot: the lists change places, and no jump of theirs may
        bring its value along. */
    method SwapLists(e: ExpDesc, ghost p0: Program, ghost c0: Code, ghost ts: seq<nat>, ghost fs: seq<nat>)
      returns (e': ExpDesc)
      requires Settled0(p0, c0) && Lists(prog, code, |p0|, e, ts, fs)
      modifies this`code, this`prog
      ensures Settled0(p0, c0) && Lists(prog, code, |p0|, e', fs, ts) && e' == e.(t := e.f, f := e.t)
      ensures prog == Retest(old(prog), Set(ts) + Set(fs))
      ensures |code| == |old(code)|
    {
      hide Refines, Chain, Lists, KeepsOpen, PendingHere, Ended, OpenIn, Since, Retest, SameJumps;
      ghost var p1, c1 := prog, code;
      ListsParts(prog, code, |p0|, e, ts, fs);
      e' := e.(t := e.f, f := e.t);
      RetestFrame(p0, p1, ts, fs);
      OuterJumps(p0, code, prog, weak);
      RefinesLength(code, prog, weak);
      RemoveOpen(e'.f, ts);
      ghost var c2 := code;
      ChainSameJumps(c1, c2, e.f, fs);
      RemoveOpen(e'.t, fs);
      SwappedLists(p0, c0, p1, c1, c2, code, e, ts, fs);
    }

    /** A value in a register, or waiting for one, is negated by an instruction. */
    method EmitNot(e: ExpDesc, ghost p0: Program, ghost c0: Code, ghost ts: seq<nat>, ghost fs: seq<nat>,
                   ghost x: Expr, ghost base: nat) returns (s: Status, e': ExpDesc)
      requires Built(p0, c0, e, ts, fs, x, base) && (e.k.VNonReloc? || e.k.VReloc?)
      modifies this`code, this`jpc, this`pending, this`weak, this`prog, this`freereg, this`maxstacksize
      ensures s.Success? ==> Settled0(p0, c0) && Lists(prog, code, |p0|, e', ts, fs) && freereg == base && pending == []
      ensures s.Success? ==> e'.k.VReloc? && nactvar <= base
      ensures s.Success? ==>
        Means(Retest(prog, Set(ts) + Set(fs)), |p0|, VReloc, e'.info, Set(fs), Set(ts), Neg(x), base)
      ensures s.Success? ==> |code| <= |old(code)| + 1
      ensures |old(code)| + 1 < MAXARG_sBx && base + 1 < MAXSTACK ==> s.Success?
    {
      hide Refines, Chain, Lists, Means, KeepsOpen, Retest;
      e' := e;
      var d;
      d :- Discharge2AnyReg(e, p0, c0, ts, fs, x, base);
      FreeExp(d);
      ghost var p1, c1 := prog, code;
      ListsBound(prog, code, |p0|, d, ts, fs);
      BuiltShape(prog, code, |p0|, d, ts, fs, x, base);
      NegReg(prog, |p0|, VNonReloc, d.info, Set(ts), Set(fs), x, base);
      RefinesLength(code, prog, weak);
      :- Emit(Not(0, d.info));
      RefinesLength(code, prog, weak);
      e' := d.(k := VReloc, info := |code| - 1);
      OuterOn(p0, p1, c0, c1, code);
      ListsOn(p1, prog, c1, code, |p0|, d, e', ts, fs);
      s := Success;
    }

    /** codenot */
    method CodeNot(e: ExpDesc, ghost p0: Program, ghost c0: Code, ghost ts: seq<nat>, ghost fs: seq<nat>,
                   ghost x: Expr, ghost base: nat) returns (s: Status, e': ExpDesc)
      requires Built(p0, c0, e, ts, fs, x, base)
      modifies this`code, this`jpc, this`pending, this`weak, this`prog, this`freereg, this`maxstacksize
      ensures s.Success? ==> Built(p0, c0, e', fs, ts, Neg(x), base) && (e'.k.VReloc? || e'.k.VJmp?)
      ensures s.Success? ==> |code| <= |old(code)| + 1
      ensures |old(code)| + 1 < MAXARG_sBx && base + 1 < MAXSTACK ==> s.Success?
    {
      hide Refines, Chain, Lists, Means, KeepsOpen;
      e' := DischargeVars(e, p0, c0, ts, fs, x, base);
      if e'.k.VJmp? {
        NegJumpLists(prog, code, |p0|, e', ts, fs, x, base);
        InvertJump(e', p0, c0, ts, fs, x, base);
      } else {
        e' :- EmitNot(e', p0, c0, ts, fs, x, base);
      }
      e' := SwapLists(e', p0, c0, ts, fs);
      s := Success;
    }

    /** The instruction that codecomp makes: the operands of greater and
        greater-or-equal are exchanged, as their condition is 0. */
    method CompareWith(op: RelOp, b: Reg, c: Reg) returns (i: Instr)
      ensures i == Comparison(op, b, c) && i.Cmp?
    {
      var o1, o2 := b, c;
      var cond := !(op.NotEqual? || op.Greater? || op.GreaterEq?);
      var order := if op.Equal? || op.NotEqual? then EQ else if op.Less? || op.Greater? then LT else LE;
      if !cond && order != EQ {
        o1, o2 := o2, o1;
        cond := true;
      }
      i := Cmp(order, cond, o1, o2);
    }

    /** codecomp, as luaK_posfix calls it: greater is less with its operands
        exchanged. The left operand went to its register before the right one
        was compiled, so its luaK_exp2RK has nothing to do. */
    method CodeComp(op: RelOp, e1: ExpDesc, e2: ExpDesc, ghost p0: Program, ghost c0: Code, ghost p1: Program,
                    ghost c1: Code, ghost ts: seq<nat>, ghost fs: seq<nat>, ghost x: Expr, ghost y: Expr,
                    ghost base: nat, ghost base2: nat) returns (s: Status, e': ExpDesc)
      requires Built(p1, c1, e2, ts, fs, y, base2) && e1.k.VNonReloc? && Located(e1, nactvar, base2, base)
      requires Settled1(p0, c0, p1, c1) && Scoped(y, base)
      requires Means(p1, |p0|, VNonReloc, e1.info, Set([]), Set([]), x, base)
      modifies this`code, this`jpc, this`lasttarget, this`pending, this`weak, this`prog, this`freereg, this`maxstacksize
      ensures s.Success? ==> Built(p0, c0, e', [], [], Rel(op, x, y), base) && e'.k.VJmp?
      ensures s.Success? ==> ComparesLast(prog, op, e1.info)
      ensures s.Success? ==> |code| <= |old(code)| + 6
      ensures |old(code)| + 6 < MAXARG_sBx && base2 + 1 < MAXSTACK ==> s.Success?
    {
      hide Refines, Chain, Lists, Means, KeepsOpen, ComparesLast, Comparison;
      e' := ExpDesc(VJmp, 0, NO_JUMP, NO_JUMP);
      var e;
      e :- Exp2RK(e2, p1, c1, ts, fs, y, base2);
      FreeExp(e);
      FreeExp(e1);
      ghost var p2, c2 := prog, code;
      OperandsMean(p0, p1, prog, e1.info, e.info, op, x, y, base, base2);
      var i := CompareWith(op, e1.info, e.info);
      var j;
      j :- CondJump(i);
      ComparisonLast(p2, op, e1.info, e.info);
      OuterOn(p1, p2, c1, c2, code);
      OuterOn(p0, p1, c0, c1, code);
      e' := ExpDesc(VJmp, j, NO_JUMP, NO_JUMP);
      JumpLists(prog, code, |p0|, e');
      s := Success;
    }

    /** luaK_posfix for `and` and `or`: the list of the left operand joins the
        right one's. */
    method Joining(sense: bool, l1: int, e2: ExpDesc, ghost p0: Program, ghost c0: Code, ghost p1: Program,
                   ghost c1: Code, ghost js: seq<nat>, ghost ts: seq<nat>, ghost fs: seq<nat>, ghost x: Expr,
                   ghost y: Expr, ghost base: nat) returns (s: Status, e': ExpDesc)
      requires Built(p1, c1, e2, ts, fs, y, base) && Settled1(p0, c0, p1, c1) && Scoped(y, base) && |p1| > |p0|
      requires |prog| == |p1| ==> Since(pending, |p0|)
      requires Chain(c1, l1, js) && OpenIn(p1, Set(js)) && Since(js, |p0|)
      requires Branches(p1, |p0|, if sense then {} else Set(js), if sense then Set(js) else {}, x, base, sense)
      modifies this`code
      ensures s.Success? ==>
        Built(p0, c0, e', if sense then ts else ts + js, if sense then fs + js else fs, Joined(sense, x, y), base)
      ensures |code| == |old(code)|
      ensures |old(code)| < MAXARG_sBx ==> s.Success?
    {
      hide Refines, Chain, Lists, Means, Branches, KeepsOpen, OpenIn, Linked;
      e' := DischargeVars(e2, p1, c1, ts, fs, y, base);
      ghost var c2 := code;
      JoinedBound(p1, prog, c1, code, e', ts, fs, js, l1);
      JoinedMeans(p1, prog, |p0|, Set(js), x, sense, e'.k, e'.info, Set(ts), Set(fs), y, base);
      ListsParts(prog, code, |p1|, e', ts, fs);
      BuiltShape(prog, code, |p1|, e', ts, fs, y, base);
      var l;
      l :- ConcatOpen(if sense then e'.f else e'.t, l1, if sense then fs else ts, js);
      JoinedLists(p1, prog, c2, code, |p0|, e', ts, fs, js, sense, l);
      OuterOn(p0, p1, c0, c1, c2);
      SinceLess(if sense then fs else ts, |p1|, |p0|);
      LinkedOuter(p0, c0, c2, code, if sense then fs else ts);
      e' := if sense then e'.(f := l) else e'.(t := l);
      s := Success;
    }

    /** subexpr: an operand, the operator, the other operand, as the parser
        comes to them. */
    method Expression(x: Expr) returns (s: Status, e: ExpDesc, ghost ts: seq<nat>, ghost fs: seq<nat>)
      requires Settled0(prog, code) && Scoped(x, nactvar)
      modifies this`code, this`jpc, this`lasttarget, this`pending, this`weak, this`prog, this`freereg, this`maxstacksize
      ensures s.Success? ==> Built(old(prog), old(code), e, ts, fs, x, old(freereg))
      ensures s.Success? && |prog| == |old(prog)| ==> pending == old(pending)
      ensures s.Success? ==> |code| <= |old(code)| + CodeNeed(x)
      ensures |old(code)| + CodeNeed(x) < MAXARG_sBx && old(freereg) + RegNeed(x) < MAXSTACK ==> s.Success?
      decreases x, 1
    {
      hide Refines, Chain, Lists, Means, Branches, KeepsOpen, OpenIn;
      ghost var p0, c0, base := prog, code, freereg;
      e, ts, fs := ExpDesc(VLocal, 0, NO_JUMP, NO_JUMP), [], [];
      match x {
      case Local(r) =>
        e := ExpDesc(VLocal, r, NO_JUMP, NO_JUMP);
        LocalMeans(prog, r, freereg);
        NoLists(prog, code, |prog|, e);
      case Neg(y) =>
        e, ts, fs :- Expression(y);
        e :- CodeNot(e, p0, c0, ts, fs, y, base);
        ts, fs := fs, ts;
        BuiltShape(prog, code, |p0|, e, ts, fs, x, base);
      case And(y, z) =>
        e, ts, fs :- Conjunction(y, z);
      case Or(y, z) =>
        e, ts, fs :- Disjunction(y, z);
      case Rel(op, y, z) =>
        e, ts, fs :- Relation(op, y, z);
      }
      s := Success;
    }

    /** The code of the right operand goes on where the left one is true. */
    method Conjunction(y: Expr, z: Expr) returns (s: Status, e: ExpDesc, ghost ts: seq<nat>, ghost fs: seq<nat>)
      requires Settled0(prog, code) && Scoped(And(y, z), nactvar)
      modifies this`code, this`jpc, this`lasttarget, this`pending, this`weak, this`prog, this`freereg, this`maxstacksize
      ensures s.Success? ==> Built(old(prog), old(code), e, ts, fs, And(y, z), old(freereg))
      ensures s.Success? && |prog| == |old(prog)| ==> pending == old(pending)
      ensures s.Success? ==> |code| <= |old(code)| + CodeNeed(And(y, z))
      ensures |old(code)| + CodeNeed(And(y, z)) < MAXARG_sBx && old(freereg) + RegNeed(And(y, z)) < MAXSTACK ==> s.Success?
      decreases And(y, z), 0
    {
      hide Refines, Chain, Lists, Means, Branches, KeepsOpen, OpenIn;
      ghost var p0, c0, base := prog, code, freereg;
      e, ts, fs :- Expression(y);
      var f;
      ghost var js;
      f, js :- GoIfTrue(e, p0, c0, ts, fs, y, base);
      ghost var p1, c1 := prog, code;
      RefinesLength(code, prog, weak);
      KeepsOpenSelf(prog, code);
      e, ts, fs :- Expression(z);
      ScopedMore(z, nactvar, base);
      e :- Joining(true, f, e, p0, c0, p1, c1, js, ts, fs, y, z, base);
      fs := fs + js;
      s := Success;
    }

    /** The code of the right operand goes on where the left one is false. */
    method Disjunction(y: Expr, z: Expr) returns (s: Status, e: ExpDesc, ghost ts: seq<nat>, ghost fs: seq<nat>)
      requires Settled0(prog, code) && Scoped(Or(y, z), nactvar)
      modifies this`code, this`jpc, this`lasttarget, this`pending, this`weak, this`prog, this`freereg, this`maxstacksize
      ensures s.Success? ==> Built(old(prog), old(code), e, ts, fs, Or(y, z), old(freereg))
      ensures s.Success? && |prog| == |old(prog)| ==> pending == old(pending)
      ensures s.Success? ==> |code| <= |old(code)| + CodeNeed(Or(y, z))
      ensures |old(code)| + CodeNeed(Or(y, z)) < MAXARG_sBx && old(freereg) + RegNeed(Or(y, z)) < MAXSTACK ==> s.Success?
      decreases Or(y, z), 0
    {
      hide Refines, Chain, Lists, Means, Branches, KeepsOpen, OpenIn;
      ghost var p0, c0, base := prog, code, freereg;
      e, ts, fs :- Expression(y);
      var t;
      ghost var js;
      t, js :- GoIfFalse(e, p0, c0, ts, fs, y, base);
      ghost var p1, c1 := prog, code;
      RefinesLength(code, prog, weak);
      KeepsOpenSelf(prog, code);
      e, ts, fs :- Expression(z);
      ScopedMore(z, nactvar, base);
      e :- Joining(false, t, e, p0, c0, p1, c1, js, ts, fs, y, z, base);
      ts := ts + js;
      s := Success;
    }

    /** Both operands of a comparison are put into registers. */
    method Relation(op: RelOp, y: Expr, z: Expr) returns (s: Status, e: ExpDesc, ghost ts: seq<nat>, ghost fs: seq<nat>)
      requires Settled0(prog, code) && Scoped(Rel(op, y, z), nactvar)
      modifies this`code, this`jpc, this`lasttarget, this`pending, this`weak, this`prog, this`freereg, this`maxstacksize
      ensures s.Success? ==> Built(old(prog), old(code), e, ts, fs, Rel(op, y, z), old(freereg))
      ensures s.Success? && |prog| == |old(prog)| ==> pending == old(pending)
      ensures s.Success? ==> |code| <= |old(code)| + CodeNeed(Rel(op, y, z))
      ensures |old(code)| + CodeNeed(Rel(op, y, z)) < MAXARG_sBx && old(freereg) + RegNeed(Rel(op, y, z)) < MAXSTACK ==> s.Success?
      decreases Rel(op, y, z), 0
    {
      hide Refines, Chain, Lists, Means, Branches, KeepsOpen, OpenIn;
      ghost var p0, c0, base := prog, code, freereg;
      e, ts, fs :- Expression(y);
      var e1;
      e1 :- Exp2RK(e, p0, c0, ts, fs, y, base);
      ghost var p1, c1, base2 := prog, code, freereg;
      RefinesLength(code, prog, weak);
      KeepsOpenSelf(prog, code);
      e, ts, fs :- Expression(z);
      ScopedMore(z, nactvar, base);
      e :- CodeComp(op, e1, e, p0, c0, p1, c1, ts, fs, y, z, base, base2);
      ts, fs := [], [];
      BuiltShape(prog, code, |p0|, e, ts, fs, Rel(op, y, z), base);
      s := Success;
    }

    /** Between statements: no temporary is in use. */
    ghost predicate AtStatement(n: nat)
      reads this
    {
      Settled0(prog, code) && nactvar == freereg == n
    }

    /** An assignment of one value to one local variable: luaK_storevar, after
        which the parser frees all temporaries. */
    method Assignment(r: Reg, x: Expr)
      returns (s: Status)
      requires AtStatement(nactvar) && r < nactvar && Scoped(x, nactvar)
      modifies this`code, this`jpc, this`lasttarget, this`pending, this`weak, this`prog, this`freereg, this`maxstacksize
      ensures s.Success? ==> AtStatement(nactvar) && old(prog) <= prog && Stored(prog, |old(prog)|, r, x, nactvar)
      ensures s.Success? ==> |code| <= |old(code)| + CodeNeed(x) + 4
      ensures |old(code)| + CodeNeed(x) + 4 < MAXARG_sBx && nactvar + RegNeed(x) < MAXSTACK ==> s.Success?
    {
      hide Refines, Chain, Lists, Means, KeepsOpen, Stored;
      ghost var p0, c0 := prog, code;
      var e;
      ghost var ts, fs;
      e, ts, fs :- Expression(x);
      FreeExp(e);
      e :- Exp2Reg(e, r, p0, c0, ts, fs, x, nactvar);
      freereg := nactvar;
      RefinesLength(code, prog, weak);
      KeepsOpenSelf(prog, code);
      s := Success;
    }

    /** `return` with one value. */
    method ReturnStat(x: Expr) returns (s: Status, r: Reg, ghost q: Program)
      requires AtStatement(nactvar) && Scoped(x, nactvar)
      modifies this`code, this`jpc, this`lasttarget, this`pending, this`weak, this`prog, this`freereg, this`maxstacksize
      ensures s.Success? ==> old(prog) <= q && Means(q, |old(prog)|, VNonReloc, r, Set([]), Set([]), x, nactvar)
      ensures s.Success? ==> prog == q + [Do(Return(r, 2))] && Refines(code, prog, {})
      ensures |old(code)| + CodeNeed(x) + 5 < MAXARG_sBx && nactvar + RegNeed(x) < MAXSTACK ==> s.Success?
    {
      hide Refines, Chain, Lists, Means, KeepsOpen;
      ghost var p0, c0 := prog, code;
      r, q := 0, [];
      var e;
      ghost var ts, fs;
      e, ts, fs :- Expression(x);
      e :- Exp2AnyReg(e, p0, c0, ts, fs, x, nactvar);
      q := prog;
      BuiltShape(prog, code, |p0|, e, [], [], x, nactvar);
      r := e.info;
      :- Emit(Return(r, 2));
      assert weak == {};
      s := Success;
    }
  }

  /** The state an operand left behind. */
  ghost predicate Settled1(p0: Program, c0: Code, p1: Program, c1: Code) {
    p0 <= p1 && KeepsOpen(p0, c0, c1) && Ended(p0)
  }

  lemma NoLists(prog: Program, code: Code, s: nat, e: ExpDesc)
    requires e.t == e.f == NO_JUMP && !e.k.VJmp?
    ensures Lists(prog, code, s, e, [], [])
    ensures Set([]) == {}
  {
    EmptyChain(code);
  }

  lemma ScopedMore(x: Expr, n: nat, k: nat)
    requires Scoped(x, n) && n <= k
    ensures Scoped(x, k)
  {
  }

  lemma SinceLess(js: seq<nat>, s: nat, r: nat)
    requires Since(js, s) && r <= s
    ensures Since(js, r)
  {
  }

  lemma JoinedBound(p1: Program, prog: Program, c1: Code, code: Code, e: ExpDesc, ts: seq<nat>, fs: seq<nat>,
                    js: seq<nat>, l1: int)
    requires Lists(prog, code, |p1|, e, ts, fs) && Chain(c1, l1, js) && OpenIn(p1, Set(js))
    requires KeepsOpen(p1, c1, code) && p1 <= prog
    ensures Chain(code, l1, js) && OpenIn(prog, Set(js)) && (forall j :: j in Set(js) ==> j < |p1|)
    ensures forall j :: j in Set(ts) || j in Set(fs) ==> j >= |p1|
    ensures (forall j :: j in ts ==> j !in js) && (forall j :: j in fs ==> j !in js)
  {
    hide Chain;
    ChainOpen(p1, c1, code, l1, js);
    OpenOn(p1, prog, Set(js));
    assert forall j :: j in Set(js) ==> IsOpen(p1, j);
    assert forall j :: j in js ==> j in Set(js);
  }

  lemma SetPlus(js: seq<nat>, ks: seq<nat>)
    ensures Set(js + ks) == Set(js) + Set(ks)
  {
  }

  lemma JoinedLists(p1: Program, prog: Program, c2: Code, c3: Code, s: nat, e: ExpDesc, ts: seq<nat>, fs: seq<nat>,
                    js: seq<nat>, sense: bool, l: int)
    requires Lists(prog, c2, |p1|, e, ts, fs) && Linked(c2, c3, if sense then fs else ts) && s <= |p1|
    requires Chain(c3, l, (if sense then fs else ts) + js) && OpenIn(prog, Set(js)) && Since(js, s)
    requires (forall j :: j in Set(js) ==> j < |p1|) && (e.k.VJmp? ==> e.info >= |p1|)
    ensures Lists(prog, c3, s, if sense then e.(f := l) else e.(t := l),
                  if sense then ts else ts + js, if sense then fs + js else fs)
    ensures Set(ts + js) == Set(ts) + Set(js) && Set(fs + js) == Set(fs) + Set(js)
  {
    hide Chain, Linked;
    ListsParts(prog, c2, |p1|, e, ts, fs);
    SetPlus(ts, js);
    SetPlus(fs, js);
    if sense { ChainLinked(c2, c3, e.t, ts, fs); } else { ChainLinked(c2, c3, e.f, fs, ts); }
    if e.k.VJmp? { ChainLinked(c2, c3, e.info, [e.info], if sense then fs else ts); }
    assert forall j :: j in js ==> j in Set(js);
  }

  lemma OperandsMean(p0: Program, p1: Program, p2: Program, o1: nat, o2: nat, op: RelOp, x: Expr, y: Expr,
                     base: nat, base2: nat)
    requires Means(p1, |p0|, VNonReloc, o1, Set([]), Set([]), x, base) && p1 <= p2
    requires Means(p2, |p1|, VNonReloc, o2, Set([]), Set([]), y, base2) && Scoped(y, base)
    requires base <= base2 && o1 < base2
    ensures o1 < 256 && o2 < 256
    ensures Means(p2 + [Do(Comparison(op, o1, o2)), Go(Open)], |p0|, VJmp, |p2| + 1, Set([]), Set([]), Rel(op, x, y), base)
  {
    assert Set([]) == {};
    ComparedMeans(p1, p2, |p0|, o1, o2, op, x, y, base, base2);
  }

  lemma JumpLists(prog: Program, code: Code, s: nat, e: ExpDesc)
    requires e.k.VJmp? && e.t == e.f == NO_JUMP && Chain(code, e.info, [e.info])
    ensures Lists(prog, code, s, e, [], [])
  {
    EmptyChain(code);
  }

  function Nat(i: int): nat { if i < 0 then 0 else i }

  ghost predicate AllCopy(prog: Program, js: set<nat>) { forall j :: j in js ==> Copies(prog, j) }

  datatype ExpDesc = ExpDesc(k: Kind, info: nat, t: int, f: int)

  ghost predicate Since(js: seq<nat>, s: nat) { forall j :: j in js ==> j >= s }

  /** The lists of a descriptor are threaded through open jumps of its own code. */
  ghost predicate Lists(prog: Program, code: Code, s: nat, e: ExpDesc, ts: seq<nat>, fs: seq<nat>) {
    && Chain(code, e.t, ts) && Chain(code, e.f, fs)
    && OpenIn(prog, Set(ts)) && OpenIn(prog, Set(fs)) && Set(ts) !! Set(fs)
    && Since(ts, s) && Since(fs, s)
    && (e.k.VJmp? ==> Chain(code, e.info, [e.info]) && e.info !in ts && e.info !in fs)
  }

  /** Which registers the descriptor takes up. */
  predicate Located(e: ExpDesc, nactvar: nat, freereg: nat, base: nat) {
    && nactvar <= base
    && match e.k
       case VNonReloc => (e.info < nactvar && freereg == base) || (e.info == base && freereg == base + 1)
       case VLocal => e.info < nactvar && freereg == base
       case _ => freereg == base
  }

  lemma ListsBound(prog: Program, code: Code, s: nat, e: ExpDesc, ts: seq<nat>, fs: seq<nat>)
    requires Lists(prog, code, s, e, ts, fs)
    ensures forall j :: j in Set(ts) || j in Set(fs) ==> s <= j < |prog|
    ensures Set(ts) !! Set(fs) && OpenIn(prog, Set(ts)) && OpenIn(prog, Set(fs))
  {
    forall j | j in Set(ts) || j in Set(fs)
      ensures s <= j < |prog|
    {
      assert IsOpen(prog, j);
    }
  }

  lemma HeldLoose(p: Program, q: Program, weak: set<nat>, js: seq<nat>)
    requires p + [Go(Open)] <= q && weak == Set(js) && PendingHere(p, js)
    ensures Loose(q, weak, [|p|] + js)
  {
    forall j | j in [|p|] + js
      ensures j < |q| && (q[j] == Go(Open) || j in weak)
    {
      if j != |p| { assert j in js; }
    }
  }

  /** Closing the jump round the labels takes the jumps held in its list past them. */
  lemma RoundShortened(p: Program, code: Code, js: seq<nat>, reg: Reg)
    requires Refines(code, p, Set(js)) && PendingHere(p, js) && Ended(p)
    ensures Shortened(p + [Go(To(|p| + 3))] + Labels(reg),
                      Closed(p + [Go(Open)] + Labels(reg), Set([|p|] + js), |p| + 3), Set(js), |p|, |p| + 3)
  {
    var a, b := p + [Go(To(|p| + 3))] + Labels(reg), p + [Go(Open)] + Labels(reg);
    var q := Closed(b, Set([|p|] + js), |p| + 3);
    assert forall j :: j in Set([|p|] + js) <==> j == |p| || j in js;
    forall k | 0 <= k < |a|
      ensures if k in Set(js) then a[k] == Go(To(|p|)) && q[k] == Go(To(|p| + 3)) else a[k] == q[k]
    {
      if k < |p| { assert Agrees(code, p, Set(js), k); }
    }
  }

  /** Closing jumps since `p0` leaves it as it was. */
  lemma ClosedOuter(p0: Program, prog: Program, js: set<nat>, d: nat)
    requires p0 <= prog && Ended(p0) && forall j :: j in js ==> j >= |p0|
    ensures p0 <= Closed(prog, js, d)
  {
    var q := Closed(prog, js, d);
    forall k | 0 <= k < |p0|
      ensures q[k] == p0[k]
    {
      assert prog[k] == p0[k];
    }
  }

  lemma ClosedOpen(prog: Program, js: set<nat>, d: nat, ks: set<nat>)
    requires OpenIn(prog, ks) && js !! ks
    ensures OpenIn(Closed(prog, js, d), ks)
  {
    forall k | k in ks
      ensures IsOpen(Closed(prog, js, d), k)
    {
      assert IsOpen(prog, k);
    }
  }

  lemma ClosedEnded(prog: Program, js: set<nat>, d: nat)
    requires Ended(prog)
    ensures Ended(Closed(prog, js, d))
  {
  }

  lemma RoundLists(p0: Program, c0: Code, p1: Program, c1: Code, c2: Code, c3: Code, code: Code,
                   d: ExpDesc, ts: seq<nat>, fs: seq<nat>, js: seq<nat>, reg: Reg)
    requires Lists(p1, c1, |p0|, d, ts, fs) && !d.k.VJmp? && PendingHere(p1, js) && Since(js, |p0|)
    requires p0 <= p1 && Ended(p0) && KeepsOpen(p0, c0, c1) && KeepsOpen(p1, c1, c2) && c2 <= c3
    requires KeepsOpen(Closed(p1 + [Go(Open)] + Labels(reg), Set([|p1|] + js), |p1| + 3), c3, code)
    ensures var prog := Closed(p1 + [Go(Open)] + Labels(reg), Set([|p1|] + js), |p1| + 3);
            Lists(prog, code, |p0|, d, ts, fs) && p0 <= prog && KeepsOpen(p0, c0, code) && Ended(prog)
            && Since([|p1|] + js, |p0|)
  {
    hide Chain, Closed;
    var p3, held := p1 + [Go(Open)] + Labels(reg), Set([|p1|] + js);
    var prog := Closed(p3, held, |p1| + 3);
    ListsBound(p1, c1, |p0|, d, ts, fs);
    assert forall j :: j in held <==> j == |p1| || j in js;
    PendingOver(p1, js, ts);
    PendingOver(p1, js, fs);
    assert p1 <= p3 by { assert p3[..|p1|] == p1; }
    OpenOn(p1, p3, Set(ts));
    OpenOn(p1, p3, Set(fs));
    ClosedOpen(p3, held, |p1| + 3, Set(ts));
    ClosedOpen(p3, held, |p1| + 3, Set(fs));
    ClosedOuter(p0, p3, held, |p1| + 3);
    ClosedEnded(p3, held, |p1| + 3);
    ChainThrough(p1, prog, c1, c2, c3, code, d.t, ts);
    ChainThrough(p1, prog, c1, c2, c3, code, d.f, fs);
    OuterOn(p0, p1, c0, c1, c2);
    OuterMore(p0, c0, c2, c3);
    OuterOn(p0, prog, c0, c3, code);
  }

  lemma OuterMore(p0: Program, c0: Code, c2: Code, c3: Code)
    requires KeepsOpen(p0, c0, c2) && c2 <= c3
    ensures KeepsOpen(p0, c0, c3)
  {
  }

  lemma ChainThrough(p1: Program, prog: Program, c1: Code, c2: Code, c3: Code, code: Code, head: int, js: seq<nat>)
    requires Chain(c1, head, js) && OpenIn(p1, Set(js)) && OpenIn(prog, Set(js))
    requires KeepsOpen(p1, c1, c2) && c2 <= c3 && KeepsOpen(prog, c3, code)
    ensures Chain(code, head, js)
  {
    hide Chain, KeepsOpen, OpenIn;
    ChainOpen(p1, c1, c2, head, js);
    assert c3 == c2 + c3[|c2|..];
    ChainMore(c2, c3[|c2|..], head, js);
    ChainOpen(prog, c3, code, head, js);
  }

  lemma LabelsEmitted(prog: Program, reg: Reg)
    ensures prog + [Do(LoadBool(reg, false, true))] + [Do(LoadBool(reg, true, false))] == prog + Labels(reg)
    ensures |Labels(reg)| == 2
  {
  }

  lemma HeldWeak(js: seq<nat>, h: nat)
    ensures Set(js) - Set([]) + Set([h] + js) == Set([h] + js) && [] + ([h] + js) == [h] + js
  {
  }

  lemma RoundLoads(p1: Program, js: seq<nat>, reg: Reg)
    requires PendingHere(p1, js)
    ensures var prog := Closed(p1 + [Go(Open)] + Labels(reg), Set([|p1|] + js), |p1| + 3);
            Loads(prog, |p1| + 1, reg, false) && Loads(prog, |p1| + 2, reg, true)
  {
    assert forall j :: j in Set([|p1|] + js) <==> j == |p1| || j in js;
  }

  lemma ListsParts(prog: Program, code: Code, s: nat, e: ExpDesc, ts: seq<nat>, fs: seq<nat>)
    requires Lists(prog, code, s, e, ts, fs)
    ensures Chain(code, e.t, ts) && Chain(code, e.f, fs) && OpenIn(prog, Set(ts)) && OpenIn(prog, Set(fs))
    ensures e.k.VJmp? ==> Chain(code, e.info, [e.info]) && e.info !in ts && e.info !in fs
    ensures (forall j :: j in ts ==> j !in fs) && (forall j :: j in fs ==> j !in ts)
    ensures Since(ts, s) && Since(fs, s)
  {
    forall j | j in ts
      ensures j !in fs
    {
      assert j in Set(ts);
    }
  }

  lemma SetJoin(js: seq<nat>, j: nat)
    ensures Set(js + [j]) == Set(js) + {j}
  {
  }

  lemma NonePlus(js: seq<nat>)
    ensures [] + js == js && Set([]) + Set(js) == Set(js)
  {
  }

  lemma SinceNone(s: nat)
    ensures Since([], s)
  {
  }

  lemma LooseNone(prog: Program, weak: set<nat>)
    ensures Loose(prog, weak, [])
  {
  }

  lemma ClosedNone(prog: Program)
    ensures Closed(prog, Set([]), |prog|) == prog
  {
  }

  lemma LabelsEnd(prog: Program, reg: Reg)
    ensures Ended(prog + Labels(reg))
  {
  }

  /** A comparison's jump is appended to the true list. */
  lemma JoinLists(p0: Program, c0: Code, prog: Program, c1: Code, c2: Code, e: ExpDesc, ts: seq<nat>, fs: seq<nat>,
                  t: int, reg: Reg)
    requires Lists(prog, c1, |p0|, e, ts, fs) && e.k.VJmp? && IsOpen(prog, e.info) && e.info >= |p0|
    requires p0 <= prog && KeepsOpen(p0, c0, c1) && Linked(c1, c2, ts) && Chain(c2, t, ts + [e.info])
    ensures Lists(prog, c2, |p0|, ExpDesc(VNonReloc, reg, t, e.f), ts + [e.info], fs)
    ensures KeepsOpen(p0, c0, c2)
  {
    hide Chain, Linked;
    ListsParts(prog, c1, |p0|, e, ts, fs);
    ChainLinked(c1, c2, e.f, fs, ts);
    LinkedKeepsOpen(p0, c0, c1, c2, ts);
  }

  lemma ListsMore(p0: Program, c0: Code, p1: Program, p2: Program, c1: Code, c2: Code, d: ExpDesc,
                  ts: seq<nat>, fs: seq<nat>)
    requires Lists(p1, c1, |p0|, d, ts, fs) && !d.k.VJmp? && p1 <= p2 && c1 <= c2
    requires p0 <= p1 && KeepsOpen(p0, c0, c1)
    ensures Lists(p2, c2, |p0|, d, ts, fs) && p0 <= p2 && KeepsOpen(p0, c0, c2)
  {
    hide Chain;
    var more := c2[|c1|..];
    assert c2 == c1 + more;
    ChainMore(c1, more, d.t, ts);
    ChainMore(c1, more, d.f, fs);
    OpenOn(p1, p2, Set(ts));
    OpenOn(p1, p2, Set(fs));
  }

  /** Where every jump of the lists copies, the other target does not matter. */
  lemma CopiesPatched(code: Code, prog: Program, weak: set<nat>, ts: seq<nat>, fs: seq<nat>, v: int, r: Reg,
                      pf: int, pt: int)
    requires Refines(code, prog, weak) && OpenIn(prog, Set(ts)) && OpenIn(prog, Set(fs)) && Set(ts) !! Set(fs)
    requires AllCopy(prog, Set(ts)) && AllCopy(prog, Set(fs))
    ensures Patched(Patched(code, Set(fs), v, r, pf), Set(ts), v, r, pt)
         == Patched(Patched(code, Set(fs), v, r, Nat(pf)), Set(ts), v, r, Nat(pt))
  {
    CopiesIn(code, prog, weak, Set(fs));
    CopiesIn(code, prog, weak, Set(ts));
    PatchedAlike(code, Set(fs), v, r, pf, Nat(pf));
    var c := Patched(code, Set(fs), v, r, pf);
    forall j | j in Set(ts)
      ensures CopiesAt(c, j)
    {
      assert IsOpen(prog, j);
      assert Copies(prog, j);
      assert !IsOpen(prog, j - 1);
    }
    PatchedAlike(c, Set(ts), v, r, pt, Nat(pt));
  }

  lemma CopiesIn(code: Code, prog: Program, weak: set<nat>, js: set<nat>)
    requires Refines(code, prog, weak) && OpenIn(prog, js) && AllCopy(prog, js)
    ensures forall j :: j in js ==> CopiesAt(code, j)
  {
    forall j | j in js
      ensures CopiesAt(code, j)
    {
      assert IsOpen(prog, j);
      assert Copies(prog, j);
      assert Agrees(code, prog, weak, j - 1);
      assert Agrees(code, prog, weak, j);
    }
  }

  lemma PatchedAlike(code: Code, js: set<nat>, v: int, r: Reg, d1: int, d2: int)
    requires forall j :: j in js ==> CopiesAt(code, j)
    ensures Patched(code, js, v, r, d1) == Patched(code, js, v, r, d2)
  {
  }

  lemma PatchedChain(code: Code, h1: int, js: seq<nat>, h2: int, ks: seq<nat>, v: int, r: Reg, d: int)
    requires Chain(code, h2, ks) && forall k :: k in ks ==> k !in js
    ensures Chain(Patched(code, Set(js), v, r, d), h2, ks)
  {
    ChainJumps(code, h2, ks);
    ChainSame(code, Patched(code, Set(js), v, r, d), h2, ks);
  }

  lemma PatchedPending(code: Code, jpc: int, pending: seq<nat>, ts: seq<nat>, fs: seq<nat>, v: int, r: Reg, pf: int, pt: int)
    requires Chain(code, jpc, pending) && forall k :: k in pending ==> k !in ts && k !in fs
    ensures Chain(Patched(Patched(code, Set(fs), v, r, pf), Set(ts), v, r, pt), jpc, pending)
  {
    hide Patched, Chain;
    PatchedChain(code, NO_JUMP, fs, jpc, pending, v, r, pf);
    PatchedChain(Patched(code, Set(fs), v, r, pf), NO_JUMP, ts, jpc, pending, v, r, pt);
  }

  lemma SentAround(p0: Program, c0: Code, code: Code, prog: Program, weak: set<nat>, ts: seq<nat>, fs: seq<nat>,
                   r: Reg, pf: nat, pt: nat, pending: seq<nat>)
    requires Refines(code, prog, weak) && p0 <= prog && KeepsOpen(p0, c0, code) && Ended(p0) && Ended(prog)
    requires Since(ts, |p0|) && Since(fs, |p0|) && PendingHere(prog, pending)
    requires OpenIn(prog, Set(ts)) && OpenIn(prog, Set(fs))
    ensures var q := Sent(prog, Set(ts), Set(fs), r, pf, pt);
            && p0 <= q && Ended(q) && PendingHere(q, pending)
            && KeepsOpen(p0, c0, Patched(Patched(code, Set(fs), |code|, r, pf), Set(ts), |code|, r, pt))
    ensures forall k :: k in pending ==> k !in ts && k !in fs
  {
    hide Patched, KeepsOpen, Sent;
    PendingOver(prog, pending, ts);
    PendingOver(prog, pending, fs);
    SentOuter(p0, prog, Set(ts), Set(fs), r, pf, pt);
    SentPending(prog, Set(ts), Set(fs), r, pf, pt, pending);
    OuterJumps(p0, code, prog, weak);
    PatchedOuter(p0, c0, code, fs, |code|, r, pf);
    PatchedOuter(p0, c0, Patched(code, Set(fs), |code|, r, pf), ts, |code|, r, pt);
  }

  lemma SentOuter(p0: Program, prog: Program, ts: set<nat>, fs: set<nat>, r: Reg, pf: nat, pt: nat)
    requires p0 <= prog && Ended(p0) && forall j :: j in ts || j in fs ==> j >= |p0|
    ensures p0 <= Sent(prog, ts, fs, r, pf, pt)
  {
    forall k | 0 <= k < |p0|
      ensures Sent(prog, ts, fs, r, pf, pt)[k] == p0[k]
    {
      assert prog[k] == p0[k];
    }
  }

  lemma SentPending(prog: Program, ts: set<nat>, fs: set<nat>, r: Reg, pf: nat, pt: nat, pending: seq<nat>)
    requires PendingHere(prog, pending) && Ended(prog) && forall k :: k in pending ==> k !in ts && k !in fs
    ensures PendingHere(Sent(prog, ts, fs, r, pf, pt), pending) && Ended(Sent(prog, ts, fs, r, pf, pt))
  {
  }

  /** Patching lists since `p0` leaves the open jumps before it alone. */
  lemma PatchedOuter(p0: Program, c0: Code, code: Code, js: seq<nat>, v: int, r: Reg, d: int)
    requires KeepsOpen(p0, c0, code) && Since(js, |p0|)
    requires forall k: nat :: IsOpen(p0, k) ==> k < |code| && code[k].Jmp?
    ensures KeepsOpen(p0, c0, Patched(code, Set(js), v, r, d))
    ensures forall k: nat :: IsOpen(p0, k) ==> Patched(code, Set(js), v, r, d)[k].Jmp?
  {
    hide Patched;
    forall k: nat | IsOpen(p0, k)
      ensures Patched(code, Set(js), v, r, d)[k] == code[k]
    {
      PatchedKeeps(code, Set(js), v, r, d, k);
    }
  }

  lemma OuterJumps(p0: Program, code: Code, prog: Program, weak: set<nat>)
    requires Refines(code, prog, weak) && p0 <= prog
    ensures forall k: nat :: IsOpen(p0, k) ==> k < |code| && code[k].Jmp?
  {
    forall k: nat | IsOpen(p0, k)
      ensures k < |code| && code[k].Jmp?
    {
      assert Agrees(code, prog, weak, k);
    }
  }

  lemma ListsHeads(prog: Program, code: Code, s: nat, e: ExpDesc, ts: seq<nat>, fs: seq<nat>)
    requires Lists(prog, code, s, e, ts, fs) && s <= |prog|
    ensures e.t == e.f ==> ts == [] && fs == []
    ensures e.t != e.f ==> |prog| > s
  {
    HeadOf(code, e.t, ts);
    HeadOf(code, e.f, fs);
    if ts != [] { assert ts[0] in ts && ts[0] in Set(ts) && IsOpen(prog, ts[0]); }
    if fs != [] { assert fs[0] in fs && fs[0] in Set(fs) && IsOpen(prog, fs[0]); }
  }

  lemma LoadsLabelled(prog: Program, code: Code, s: nat, d: ExpDesc, ts: seq<nat>, fs: seq<nat>, r: Reg, pf: nat, pt: nat)
    requires Lists(prog, code, s, d, ts, fs) && Loads(prog, pf, r, false) && Loads(prog, pt, r, true) && pt == pf + 1
    ensures Labelled(prog, Set(ts), true, r, pf, pt) && Labelled(prog, Set(fs), false, r, pf, pt)
  {
    forall j | j in Set(ts)
      ensures IsOpen(prog, j) && LabelFor(prog, j, true, r, pf, pt)
    {
      assert IsOpen(prog, j);
    }
    forall j | j in Set(fs)
      ensures IsOpen(prog, j) && LabelFor(prog, j, false, r, pf, pt)
    {
      assert IsOpen(prog, j);
    }
  }

  /** What need_value found in the code holds of the program. */
  lemma AllCopyIn(code: Code, prog: Program, weak: set<nat>, s: nat, d: ExpDesc, ts: seq<nat>, fs: seq<nat>, r: Reg)
    requires Refines(code, prog, weak) && Lists(prog, code, s, d, ts, fs)
    requires (forall j :: j in ts ==> CopiesAt(code, j)) && (forall j :: j in fs ==> CopiesAt(code, j))
    ensures AllCopy(prog, Set(ts)) && AllCopy(prog, Set(fs))
    ensures Labelled(prog, Set(ts), true, r, 0, 0) && Labelled(prog, Set(fs), false, r, 0, 0)
  {
    forall j | j in Set(ts) || j in Set(fs)
      ensures Copies(prog, j) && IsOpen(prog, j)
    {
      assert IsOpen(prog, j);
      assert CopiesAt(code, j);
      assert Agrees(code, prog, weak, j);
      assert Agrees(code, prog, weak, j - 1);
    }
  }

  lemma HeldStored(prog: Program, s: nat, r: Reg, x: Expr, base: nat)
    requires Held(prog, s, r, Set([]), Set([]), x, base)
    ensures Stored(prog, s, r, x, base)
  {
    forall m: Rules, a: Regs
      ensures Storing(m, prog, s, r, x, base, a)
    {
      hide Run;
      assert Holding(m, prog, s, r, Set([]), Set([]), x, base, a);
    }
  }

  lemma FinishedBuilt(prog: Program, code: Code, s: nat, r: Reg, x: Expr, base: nat)
    requires Stored(prog, s, r, x, base) && r >= base
    ensures Means(prog, s, VNonReloc, r, Set([]), Set([]), x, base)
    ensures Lists(prog, code, s, ExpDesc(VNonReloc, r, NO_JUMP, NO_JUMP), [], [])
  {
    StoredMeans(prog, s, r, x, base);
    assert Set([]) == {};
    EmptyChain(code);
  }

  lemma ReplaceCmp(code: Code, prog: Program, weak: set<nat>, pc: nat)
    requires Refines(code, prog, weak) && pc < |prog| && prog[pc].Do? && prog[pc].i.Cmp? && weak == {}
    ensures |code| == |prog| && code[pc] == prog[pc].i
    ensures var i := code[pc]; Refines(code[pc := Cmp(i.op, !i.cond, i.b, i.c)], Inverted(prog, pc), weak)
  {
    assert Agrees(code, prog, weak, pc);
    var i := code[pc];
    RefinesReplaced(code, prog, weak, pc, Cmp(i.op, !i.cond, i.b, i.c));
  }

  lemma NotThere(code: Code, prog: Program, weak: set<nat>, info: nat)
    requires Refines(code, prog, weak) && info < |prog| && prog[info].Do? && prog[info].i.Not? && weak == {}
    ensures |code| == |prog| && code[info] == prog[info].i
  {
    assert Agrees(code, prog, weak, info);
  }

  lemma InvertedLists(p0: Program, c0: Code, code: Code, prog: Program, e: ExpDesc, ts: seq<nat>, fs: seq<nat>)
    requires Lists(prog, code, |p0|, e, ts, fs) && e.k.VJmp? && p0 <= prog && KeepsOpen(p0, c0, code)
    requires |p0| < e.info == |prog| - 1 && |code| == |prog| && prog[e.info] == Go(Open)
    requires prog[e.info - 1].Do? && prog[e.info - 1].i.Cmp? && code[e.info - 1] == prog[e.info - 1].i
    ensures var i := code[e.info - 1];
            var c := code[e.info - 1 := Cmp(i.op, !i.cond, i.b, i.c)];
            Lists(Inverted(prog, e.info - 1), c, |p0|, e, ts, fs)
            && p0 <= Inverted(prog, e.info - 1) && KeepsOpen(p0, c0, c) && Ended(Inverted(prog, e.info - 1))
  {
    var i := code[e.info - 1];
    var c, d := code[e.info - 1 := Cmp(i.op, !i.cond, i.b, i.c)], e.(k := VNonReloc);
    ReplacedLists(p0, c0, code, prog, e, d, ts, fs, e.info - 1, Cmp(i.op, !i.cond, i.b, i.c),
                  Do(Cmp(i.op, !i.cond, i.b, i.c)));
    ChainJumps(code, e.info, [e.info]);
    ChainSame(code, c, e.info, [e.info]);
  }

  lemma DroppedLists(p0: Program, c0: Code, code: Code, prog: Program, e: ExpDesc, ts: seq<nat>, fs: seq<nat>)
    requires Lists(prog, code, |p0|, e, ts, fs) && e.k.VReloc? && p0 <= prog && KeepsOpen(p0, c0, code)
    requires |p0| <= e.info == |prog| - 1 && |code| == |prog| && prog[e.info].Do?
    ensures Lists(prog[..e.info], code[..e.info], |p0|, e, ts, fs)
    ensures p0 <= prog[..e.info] && KeepsOpen(p0, c0, code[..e.info])
  {
    var p, c := prog[..e.info], code[..e.info];
    forall j | j in Set(ts) || j in Set(fs)
      ensures IsOpen(p, j) && j < e.info
    {
      assert IsOpen(prog, j);
    }
    ChainSame(code, c, e.t, ts) by { assert forall j :: j in ts ==> j in Set(ts); }
    ChainSame(code, c, e.f, fs) by { assert forall j :: j in fs ==> j in Set(fs); }
    assert forall k: nat :: IsOpen(p0, k) ==> k < |p0|;
  }

  lemma ListsTested(p1: Program, p2: Program, c1: Code, c2: Code, s: nat, e: ExpDesc, ts: seq<nat>, fs: seq<nat>, j: nat)
    requires Lists(p1, c1, s, e, ts, fs) && p1 <= p2 && KeepsOpen(p1, c1, c2) && j >= |p1| && Chain(c2, j, [j])
    ensures Lists(p2, c2, s, ExpDesc(VJmp, j, e.t, e.f), ts, fs)
  {
    ListsOn(p1, p2, c1, c2, s, e, e.(k := VNonReloc), ts, fs);
    assert forall k :: k in ts ==> k in Set(ts) && IsOpen(p1, k);
    assert forall k :: k in fs ==> k in Set(fs) && IsOpen(p1, k);
  }

  lemma LinkedOuter(p0: Program, c0: Code, c1: Code, c2: Code, js: seq<nat>)
    requires KeepsOpen(p0, c0, c1) && Linked(c1, c2, js) && Since(js, |p0|)
    ensures KeepsOpen(p0, c0, c2)
  {
    LinkedKeepsOpen(p0, c0, c1, c2, js);
  }

  /** A list a jump is to join, and one to be closed. */
  ghost predicate Joinable(prog: Program, code: Code, s: nat, l1: int, keep: seq<nat>, pc: nat,
                           l2: int, close: seq<nat>)
  {
    && Chain(code, l1, keep) && Chain(code, l2, close) && Chain(code, pc, [pc])
    && OpenIn(prog, Set(keep)) && OpenIn(prog, Set(close)) && IsOpen(prog, pc) && pc >= s
    && (forall j :: j in close ==> j !in keep) && pc !in keep && pc !in close
    && Since(keep, s) && Since(close, s)
  }

  lemma JoinParts(prog: Program, code: Code, s: nat, l1: int, keep: seq<nat>, pc: nat, l2: int, close: seq<nat>)
    requires Joinable(prog, code, s, l1, keep, pc, l2, close)
    ensures Chain(code, l1, keep) && Chain(code, l2, close) && Chain(code, pc, [pc])
    ensures OpenIn(prog, Set(keep)) && OpenIn(prog, Set(close)) && OpenIn(prog, Set(keep + [pc]))
    ensures (forall j :: j in keep ==> j !in [pc]) && Since(keep, s) && Since(close, s) && Since(keep + [pc], s)
    ensures (forall j :: j in close ==> j !in keep) && (forall j :: j in close ==> j !in keep + [pc])
    ensures s <= pc < |prog|
  {
    SetJoin(keep, pc);
  }

  lemma BranchedJoin(prog: Program, code: Code, s: nat, t: int, f: int, pc: nat, ts: seq<nat>, fs: seq<nat>,
                     x: Expr, base: nat, sense: bool)
    requires Lists(prog, code, s, ExpDesc(VJmp, pc, t, f), ts, fs) && IsOpen(prog, pc) && pc >= s
    requires Branches(prog, s, if sense then Set(ts) else Set(ts) + {pc}, if sense then Set(fs) + {pc} else Set(fs),
                      x, base, sense)
    ensures var keep, close := if sense then fs else ts, if sense then ts else fs;
            && Joinable(prog, code, s, if sense then f else t, keep, pc, if sense then t else f, close)
            && Branches(Closed(prog, Set(close), |prog|), s, if sense then {} else Set(keep + [pc]),
                        if sense then Set(keep + [pc]) else {}, x, base, sense)
    ensures Since((if sense then fs else ts) + [pc], s)
  {
    hide Chain, Branches;
    ListsParts(prog, code, s, ExpDesc(VJmp, pc, t, f), ts, fs);
    SetJoin(ts, pc);
    SetJoin(fs, pc);
    var ts', fs' := if sense then Set(ts) else Set(ts) + {pc}, if sense then Set(fs) + {pc} else Set(fs);
    assert forall j :: j in ts ==> j in Set(ts);
    assert forall j :: j in fs ==> j in Set(fs);
    ClosedBranches(prog, s, ts', fs', x, base, sense);
  }

  lemma ClosedFrame(p0: Program, prog: Program, close: seq<nat>, keep: seq<nat>)
    requires p0 <= prog && Ended(p0) && Ended(prog) && Since(close, |p0|)
    requires OpenIn(prog, Set(keep)) && forall j :: j in close ==> j !in keep
    ensures var q := Closed(prog, Set(close), |prog|);
            p0 <= q && Ended(q) && OpenIn(q, Set(keep))
  {
    ClosedOuter(p0, prog, Set(close), |prog|);
    ClosedEnded(prog, Set(close), |prog|);
    ClosedOpen(prog, Set(close), |prog|, Set(keep));
  }

  lemma RetestFrame(p0: Program, prog: Program, ts: seq<nat>, fs: seq<nat>)
    requires p0 <= prog && Ended(p0) && Ended(prog) && Since(ts, |p0|) && Since(fs, |p0|)
    requires OpenIn(prog, Set(ts)) && OpenIn(prog, Set(fs))
    ensures var q := Retest(prog, Set(ts) + Set(fs));
            p0 <= q && Ended(q) && OpenIn(q, Set(ts)) && OpenIn(q, Set(fs))
            && OpenIn(Retest(prog, Set(ts)), Set(fs)) && q == Retest(Retest(prog, Set(ts)), Set(fs))
  {
    var q := Retest(prog, Set(ts) + Set(fs));
    forall j | j in Set(ts) || j in Set(fs)
      ensures IsOpen(q, j) && IsOpen(Retest(prog, Set(ts)), j)
    {
      assert IsOpen(prog, j);
    }
    forall k | 0 <= k < |p0|
      ensures q[k] == p0[k]
    {
      assert prog[k] == p0[k];
    }
  }

  lemma SameJumpsOuter(p0: Program, c0: Code, c1: Code, c2: Code)
    requires KeepsOpen(p0, c0, c1) && SameJumps(c1, c2)
    requires forall k: nat :: IsOpen(p0, k) ==> k < |c1| && c1[k].Jmp?
    ensures KeepsOpen(p0, c0, c2) && forall k: nat :: IsOpen(p0, k) ==> k < |c2| && c2[k].Jmp?
  {
  }

  lemma SwappedLists(p0: Program, c0: Code, p1: Program, c1: Code, c2: Code, c3: Code, e: ExpDesc,
                     ts: seq<nat>, fs: seq<nat>)
    requires Lists(p1, c1, |p0|, e, ts, fs) && SameJumps(c1, c2) && SameJumps(c2, c3)
    requires p0 <= p1 && KeepsOpen(p0, c0, c1) && Ended(p0) && Ended(p1)
    requires forall k: nat :: IsOpen(p0, k) ==> k < |c1| && c1[k].Jmp?
    ensures Lists(Retest(p1, Set(ts) + Set(fs)), c3, |p0|, e.(t := e.f, f := e.t), fs, ts)
    ensures KeepsOpen(p0, c0, c3)
  {
    hide Chain, Retest, SameJumps;
    ListsParts(p1, c1, |p0|, e, ts, fs);
    RetestFrame(p0, p1, ts, fs);
    ChainSameJumps(c1, c2, e.t, ts);
    ChainSameJumps(c2, c3, e.t, ts);
    ChainSameJumps(c1, c2, e.f, fs);
    ChainSameJumps(c2, c3, e.f, fs);
    if e.k.VJmp? {
      ChainSameJumps(c1, c2, e.info, [e.info]);
      ChainSameJumps(c2, c3, e.info, [e.info]);
    }
    SameJumpsOuter(p0, c0, c1, c2);
    SameJumpsOuter(p0, c0, c2, c3);
  }

  lemma NegJumpLists(prog: Program, code: Code, s: nat, e: ExpDesc, ts: seq<nat>, fs: seq<nat>, x: Expr, base: nat)
    requires Lists(prog, code, s, e, ts, fs) && Means(prog, s, e.k, e.info, Set(ts), Set(fs), x, base) && e.k.VJmp?
    ensures 0 < e.info < |prog| && prog[e.info - 1].Do? && prog[e.info - 1].i.Cmp?
    ensures Means(Retest(Inverted(prog, e.info - 1), Set(ts) + Set(fs)), s, VJmp, e.info, Set(fs), Set(ts), Neg(x), base)
  {
    BuiltShape(prog, code, s, e, ts, fs, x, base);
    NegJump(prog, s, e.info, Set(ts), Set(fs), x, base);
  }

  /** No test without its jump. */
  predicate Ended(prog: Program) {
    |prog| == 0 || !prog[|prog| - 1].Do? || !IsTest(prog[|prog| - 1].i)
  }

  function RelocatedIf(prog: Program, info: nat, r: Reg): Program {
    if info < |prog| && prog[info].Do? && prog[info].i.Not? then Relocated(prog, info, r) else prog
  }

  lemma BuiltShape(prog: Program, code: Code, s: nat, e: ExpDesc, ts: seq<nat>, fs: seq<nat>, x: Expr, base: nat)
    requires Lists(prog, code, s, e, ts, fs) && Means(prog, s, e.k, e.info, Set(ts), Set(fs), x, base)
    ensures forall j :: j in Set(ts) || j in Set(fs) ==> s <= j < |prog|
    ensures Set(ts) !! Set(fs) && s <= |prog|
    ensures e.k.VReloc? ==> s <= e.info == |prog| - 1 && prog[e.info].Do? && prog[e.info].i.Not?
                            && forall j :: j in Set(ts) || j in Set(fs) ==> j < e.info
    ensures e.k.VNonReloc? || e.k.VLocal? ==> e.info < 256
    ensures e.k.VJmp? ==> s < e.info == |prog| - 1 && prog[e.info] == Go(Open)
                          && prog[e.info - 1].Do? && prog[e.info - 1].i.Cmp?
                          && forall j :: j in Set(ts) || j in Set(fs) ==> j < e.info
  {
  }

  lemma ReplaceNot(code: Code, prog: Program, weak: set<nat>, info: nat, reg: Reg)
    requires Refines(code, prog, weak) && info < |prog| && prog[info].Do? && prog[info].i.Not? && weak == {}
    ensures |code| == |prog| && code[info] == prog[info].i
    ensures Refines(code[info := Not(reg, code[info].b)], Relocated(prog, info, reg), weak)
  {
    assert Agrees(code, prog, weak, info);
    RefinesReplaced(code, prog, weak, info, Not(reg, code[info].b));
  }

  /** Replacing an instruction that is no jump leaves lists alone. */
  lemma ReplacedLists(p0: Program, c0: Code, code: Code, prog: Program, e: ExpDesc, e': ExpDesc,
                      ts: seq<nat>, fs: seq<nat>, at: nat, i: Instr, op: Op)
    requires Lists(prog, code, |p0|, e, ts, fs) && e'.t == e.t && e'.f == e.f && !e'.k.VJmp?
    requires p0 <= prog && KeepsOpen(p0, c0, code) && |p0| <= at < |prog| == |code|
    requires prog[at].Do? && op.Do? && !code[at].Jmp?
    ensures Lists(prog[at := op], code[at := i], |p0|, e', ts, fs)
    ensures p0 <= prog[at := op] && KeepsOpen(p0, c0, code[at := i])
  {
    hide Chain;
    ChainJumps(code, e.t, ts);
    ChainJumps(code, e.f, fs);
    ChainSame(code, code[at := i], e.t, ts);
    ChainSame(code, code[at := i], e.f, fs);
    forall j: nat | IsOpen(prog, j)
      ensures IsOpen(prog[at := op], j)
    {
    }
  }

  lemma OuterOn(p0: Program, p1: Program, c0: Code, c1: Code, c2: Code)
    requires p0 <= p1 && KeepsOpen(p0, c0, c1) && KeepsOpen(p1, c1, c2)
    ensures KeepsOpen(p0, c0, c2)
  {
    forall k: nat | IsOpen(p0, k)
      ensures k < |c0| && k < |c2| && c2[k] == c0[k]
    {
      assert IsOpen(p1, k);
    }
  }

  lemma ChainOpen(prog: Program, c1: Code, c2: Code, head: int, js: seq<nat>)
    requires Chain(c1, head, js) && OpenIn(prog, Set(js)) && KeepsOpen(prog, c1, c2)
    ensures Chain(c2, head, js)
  {
    forall j | j in js
      ensures j < |c1| && j < |c2| && c2[j] == c1[j]
    {
      assert j in Set(js) && IsOpen(prog, j);
    }
    ChainSame(c1, c2, head, js);
  }

  lemma OpenOn(p1: Program, p2: Program, js: set<nat>)
    requires OpenIn(p1, js) && p1 <= p2
    ensures OpenIn(p2, js)
  {
    forall j | j in js
      ensures IsOpen(p2, j)
    {
      assert IsOpen(p1, j);
    }
  }

  lemma ListsOn(p1: Program, p2: Program, c1: Code, c2: Code, s: nat, e: ExpDesc, e': ExpDesc,
                ts: seq<nat>, fs: seq<nat>)
    requires Lists(p1, c1, s, e, ts, fs) && p1 <= p2 && KeepsOpen(p1, c1, c2)
    requires e'.t == e.t && e'.f == e.f && !e'.k.VJmp?
    ensures Lists(p2, c2, s, e', ts, fs)
  {
    hide Chain, OpenIn, KeepsOpen;
    ChainOpen(p1, c1, c2, e.t, ts);
    ChainOpen(p1, c1, c2, e.f, fs);
    OpenOn(p1, p2, Set(ts));
    OpenOn(p1, p2, Set(fs));
  }

  /** The jumps are open, or settled in the program only. */
  ghost predicate Loose(prog: Program, weak: set<nat>, js: seq<nat>) {
    forall j :: j in js ==> j < |prog| && (prog[j] == Go(Open) || j in weak)
  }

  lemma OpenLoose(prog: Program, weak: set<nat>, js: seq<nat>)
    requires OpenIn(prog, Set(js))
    ensures Loose(prog, weak, js)
    ensures forall j :: j in Set(js) ==> j < |prog| && prog[j] == Go(Open)
  {
    forall j | j in js
      ensures j < |prog| && prog[j] == Go(Open)
    {
      assert j in Set(js) && IsOpen(prog, j);
    }
  }

  ghost predicate SameJumps(was: Code, now: Code) {
    |was| == |now| && forall k :: 0 <= k < |was| && was[k].Jmp? ==> now[k] == was[k]
  }

  lemma ChainSameJumps(was: Code, now: Code, head: int, js: seq<nat>)
    requires Chain(was, head, js) && SameJumps(was, now)
    ensures Chain(now, head, js)
  {
    ChainJumps(was, head, js);
    ChainSame(was, now, head, js);
  }

  lemma ChainLinked(was: Code, now: Code, head: int, js: seq<nat>, ks: seq<nat>)
    requires Chain(was, head, js) && Linked(was, now, ks) && forall j :: j in js ==> j !in ks
    ensures Chain(now, head, js)
  {
    ChainJumps(was, head, js);
    assert ks != [] ==> ks[|ks| - 1] in ks;
    ChainSame(was, now, head, js);
  }

  lemma ClosedHere(prog: Program, weak: set<nat>, js: seq<nat>, ks: seq<nat>)
    requires PendingHere(prog, js) && Set(js) <= weak && Loose(prog, weak, ks)
    ensures var q := Closed(prog, Set(ks), |prog|);
            PendingHere(q, js + ks) && Loose(q, weak + Set(ks), js) && Set(js + ks) <= weak + Set(ks)
            && forall j :: j in js ==> !IsOpen(q, j)
  {
    forall j | j in js
      ensures j in weak
    {
      assert j in Set(js);
    }
  }

  lemma RetestPending(prog: Program, js: set<nat>, ks: seq<nat>)
    requires PendingHere(prog, ks)
    ensures PendingHere(Retest(prog, js), ks)
  {
  }

  lemma KeepsOpenSelf(prog: Program, code: Code)
    requires |prog| <= |code|
    ensures KeepsOpen(prog, code, code)
  {
  }

  /** Code at open jumps is left alone. */
  ghost predicate KeepsOpen(prog: Program, was: Code, now: Code) {
    forall k: nat :: IsOpen(prog, k) ==> k < |was| && k < |now| && now[k] == was[k]
  }

  lemma KeepsOpenPatched(code: Code, prog: Program, weak: set<nat>, js: seq<nat>, v: int, r: Reg, d: int)
    requires Refines(code, prog, weak) && Set(js) <= weak
    ensures KeepsOpen(prog, code, Patched(code, Set(js), v, r, d))
  {
    forall k: nat | IsOpen(prog, k)
      ensures k < |code| && Patched(code, Set(js), v, r, d)[k] == code[k]
    {
      assert Agrees(code, prog, weak, k);
    }
  }

  lemma KeepsOpenMore(prog: Program, was: Code, now: Code, more: Code)
    requires KeepsOpen(prog, was, now) || (was == now && |prog| <= |was|)
    ensures KeepsOpen(prog, was, now + more)
  {
  }

  lemma KeepsOpenTrans(p: Program, q: Program, a: Code, b: Code, c: Code)
    requires KeepsOpen(p, a, b) && KeepsOpen(q, b, c) && p <= q
    ensures KeepsOpen(p, a, c)
  {
    forall k: nat | IsOpen(p, k)
      ensures k < |a| && k < |c| && c[k] == a[k]
    {
      assert IsOpen(q, k);
    }
  }

  lemma LinkedKeepsOpen(p: Program, was: Code, mid: Code, now: Code, js: seq<nat>)
    requires KeepsOpen(p, was, mid) && Linked(mid, now, js) && forall j :: j in js ==> !IsOpen(p, j)
    ensures KeepsOpen(p, was, now)
  {
    assert js != [] ==> js[|js| - 1] in js;
  }

  lemma LinkedRefines(was: Code, now: Code, prog: Program, weak: set<nat>, js: seq<nat>)
    requires Refines(was, prog, weak) && Linked(was, now, js)
    requires forall j :: j in js ==> j < |prog| && (prog[j] == Go(Open) || j in weak)
    ensures Refines(now, prog, weak)
  {
    if was != now {
      var j := js[|js| - 1];
      assert j in js;
      var x :| now == was[j := Jmp(x)];
      RefinesLinked(was, prog, weak, j, x);
    }
  }

  lemma ChainMore(code: Code, more: Code, head: int, js: seq<nat>)
    requires Chain(code, head, js)
    ensures Chain(code + more, head, js)
  {
    ChainJumps(code, head, js);
    ChainSame(code, code + more, head, js);
  }

  lemma ChainOne(code: Code, j: nat)
    requires j < |code| && code[j] == Jmp(NO_JUMP)
    ensures Chain(code, j, [j])
  {
    assert [j][1..] == [];
    EmptyChain(code);
  }

  lemma RefinesLength(code: Code, prog: Program, weak: set<nat>)
    requires Refines(code, prog, weak)
    ensures |code| == |prog| && |prog| !in weak && |prog| + 1 !in weak
  {
  }

  lemma EmptyChain(code: Code)
    ensures Chain(code, NO_JUMP, [])
  {
  }

  /** The test before a jump is given its register. */
  function Retest1(code: Code, j: nat, r: Reg): Code {
    if 1 <= j <= |code| then code[j - 1 := Retargeted(code[j - 1], r)] else code
  }

  lemma SetStep(js: seq<nat>, i: nat)
    requires i < |js|
    ensures Set(js[..i + 1]) == Set(js[..i]) + {js[i]}
  {
    assert js[..i + 1] == js[..i] + [js[i]];
  }

  lemma ClearedJumps(code: Code, js: set<nat>)
    ensures forall k :: 0 <= k < |code| && code[k].Jmp? ==> Cleared(code, js)[k] == code[k]
  {
  }

  /** One turn of patchlistaux. */
  lemma PatchStep(was: Code, list: int, js: seq<nat>, i: nat, v: int, r: Reg, d: int)
    requires Chain(was, list, js) && i < |js| && js[i] < |was| && was[js[i]].Jmp?
    ensures var now := Patched(was, Set(js[..i]), v, r, d); var j := js[i];
            && now[j] == was[j] && CopiesAt(now, j) == CopiesAt(was, j)
            && |Retest1(now, j, r)| == |was| && Retest1(now, j, r)[j] == was[j]
            && Retest1(now, j, r)[j := Offset(j, if CopiesAt(now, j) then v else d)]
               == Patched(was, Set(js[..i + 1]), v, r, d)
  {
    ChainJumps(was, list, js);
    var done := Set(js[..i]);
    forall k | 0 <= k < i
      ensures js[k] != js[i]
    {
      ChainDistinct(was, list, js, k, i);
    }
    assert js[i] !in done;
    assert forall k :: k in done ==> k in js;
    PatchedStep(was, done, js[i], v, r, d);
    SetStep(js, i);
  }

  /** At most the end of the list has changed. */
  ghost predicate Linked(was: Code, now: Code, js: seq<nat>) {
    was == now || (js != [] && js[|js| - 1] < |was| && exists x :: now == was[js[|js| - 1] := Jmp(x)])
  }

  lemma HeadOf(code: Code, head: int, js: seq<nat>)
    requires Chain(code, head, js)
    ensures head == if js == [] then NO_JUMP else js[0]
    ensures js != [] ==> js[0] < |code| && code[js[0]].Jmp?
  {
  }

  lemma NextOf(code: Code, head: int, js: seq<nat>, i: nat)
    requires Chain(code, head, js) && i < |js|
    ensures js[i] < |code| && code[js[i]].Jmp?
    ensures Next(code, js[i]) == if i + 1 < |js| then js[i + 1] else NO_JUMP
  {
    ChainFrom(code, head, js, i);
    if i + 1 < |js| {
      assert js[i..][1..] == js[i + 1..];
    } else {
      assert js[i..][1..] == [];
    }
  }
}
