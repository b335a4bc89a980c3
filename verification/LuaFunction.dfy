/** Whole functions: assignments to local variables and a returned value. */
module LuaFunction {
  import opened LuaProgram
  import opened LuaMeaning
  import opened LuaLists
  import opened LuaCode
  import opened LuaMachine

  datatype Assign = Assign(r: Reg, x: Expr)

  function Exec(m: Rules, body: seq<Assign>, regs: Regs): Regs {
    if body == [] then regs
    else
      var before := Exec(m, body[..|body| - 1], regs);
      var s := body[|body| - 1];
      before[s.r := Eval(m, s.x, before)]
  }

  predicate AllScoped(body: seq<Assign>, n: nat) {
    forall i :: 0 <= i < |body| ==> body[i].r < n && Scoped(body[i].x, n)
  }

  /** How many instructions the first `n` assignments take at most. */
  function BodyNeed(body: seq<Assign>, n: nat): nat
    requires n <= |body|
  {
    if n == 0 then 0 else BodyNeed(body, n - 1) + CodeNeed(body[n - 1].x) + 4
  }

  lemma {:induction false} BodyNeedGrows(body: seq<Assign>, i: nat, n: nat)
    requires i <= n <= |body|
    ensures BodyNeed(body, i) <= BodyNeed(body, n)
  {
    if i < n { BodyNeedGrows(body, i, n - 1); }
  }

  /** The program so far does to the variables what the statements say. */
  ghost predicate Does(prog: Program, body: seq<Assign>, n: nat) {
    forall m: Rules, a: Regs :: Doing(m, prog, body, n, a)
  }

  ghost predicate Doing(m: Rules, prog: Program, body: seq<Assign>, n: nat, a: Regs) {
    var o := Run(m, prog, 0, |prog|, a);
    o.At? && Keeps(Exec(m, body, a), o.regs, n)
  }

  lemma DoesNothing(n: nat)
    ensures Does([], [], n)
  {
  }

  lemma DoesMore(p: Program, q: Program, body: seq<Assign>, s: Assign, n: nat)
    requires Does(p, body, n) && p <= q && Stored(q, |p|, s.r, s.x, n) && s.r < n && Scoped(s.x, n)
    ensures Does(q, body + [s], n)
  {
    assert (body + [s])[..|body|] == body;
    forall m: Rules, a: Regs
      ensures Doing(m, q, body + [s], n, a)
    {
      hide Run;
      assert Doing(m, p, body, n, a);
      assert p[..|p|] == q[..|p|];
      RunSame(m, p, q, 0, |p|, a);
      RunOn(m, q, 0, |p|, |q|, a);
      var o := Run(m, p, 0, |p|, a);
      assert Storing(m, q, |p|, s.r, s.x, n, o.regs);
      EvalKeeps(m, s.x, Exec(m, body, a), o.regs, n);
    }
  }

  /** The first assignment is made first. */
  lemma {:induction false} ExecFirst(m: Rules, s: Assign, body: seq<Assign>, a: Regs)
    ensures Exec(m, [s] + body, a) == Exec(m, body, a[s.r := Eval(m, s.x, a)])
    decreases |body|
  {
    var all := [s] + body;
    if body == [] {
      assert all[..0] == [] && all[0] == s;
      assert Exec(m, all[..0], a) == a;
    } else {
      assert all[..|all| - 1] == [s] + body[..|body| - 1];
      ExecFirst(m, s, body[..|body| - 1], a);
    }
  }

  /** On the machine, the code comes to its return with the value `v`. */
  ghost predicate Gives(m: Rules, code: Code, a: Regs, v: Value) {
    && |code| > 0 && code[|code| - 1].Return? && code[|code| - 1].n == 2
    && exists b: Regs :: GivesWith(m, code, a, v, b)
  }

  ghost predicate GivesWith(m: Rules, code: Code, a: Regs, v: Value, b: Regs)
    requires |code| > 0 && code[|code| - 1].Return?
  {
    Reaches(m, code, State(0, a), State(|code| - 1, b)) && b[code[|code| - 1].a] == v
  }

  /** That value is the one of `x` behind the assignments. */
  ghost predicate Returns(m: Rules, code: Code, body: seq<Assign>, x: Expr, a: Regs) {
    Gives(m, code, a, Eval(m, x, Exec(m, body, a)))
  }

  /** What the code of a function of one operator gives, in the terms of the
      reference manual. */
  lemma OperatorsGive(m: Rules, code: Code, x: Expr, i: Reg, j: Reg, a: Regs)
    requires Returns(m, code, [], x, a)
    ensures x == Local(i) ==> Gives(m, code, a, a[i])
    ensures x == Rel(Equal, Local(i), Local(j)) ==> Gives(m, code, a, Bool(m.eq(a[i], a[j])))
    ensures x == Rel(NotEqual, Local(i), Local(j)) ==> Gives(m, code, a, Bool(!m.eq(a[i], a[j])))
    ensures x == Rel(Less, Local(i), Local(j)) ==> Gives(m, code, a, Bool(m.lt(a[i], a[j])))
    ensures x == Rel(LessEq, Local(i), Local(j)) ==> Gives(m, code, a, Bool(m.le(a[i], a[j])))
    ensures x == Rel(Greater, Local(i), Local(j)) ==> Gives(m, code, a, Bool(m.lt(a[j], a[i])))
    ensures x == Rel(GreaterEq, Local(i), Local(j)) ==> Gives(m, code, a, Bool(m.le(a[j], a[i])))
    ensures x == Neg(Local(i)) ==> Gives(m, code, a, Bool(a[i] == Nil || a[i] == Bool(false)))
    ensures x == And(Local(i), Local(j)) ==> Gives(m, code, a, if a[i] == Nil || a[i] == Bool(false) then a[i] else a[j])
    ensures x == Or(Local(i), Local(j)) ==> Gives(m, code, a, if a[i] == Nil || a[i] == Bool(false) then a[j] else a[i])
  {
    hide Gives;
    assert Exec(m, [], a) == a;
    assert Eval(m, Local(i), a) == a[i] && Eval(m, Local(j), a) == a[j];
  }

  /** The same with operands of any kind. */
  lemma OperandsGive(m: Rules, code: Code, body: seq<Assign>, x: Expr, y: Expr, op: RelOp, a: Regs)
    ensures var b := Exec(m, body, a);
      var v, w := Eval(m, x, b), Eval(m, y, b);
      && (Returns(m, code, body, Rel(op, x, y), a) ==>
            Gives(m, code, a, Bool(
              if op == Equal then m.eq(v, w) else if op == NotEqual then !m.eq(v, w)
              else if op == Less then m.lt(v, w) else if op == LessEq then m.le(v, w)
              else if op == Greater then m.lt(w, v) else m.le(w, v))))
      && (Returns(m, code, body, Neg(x), a) ==> Gives(m, code, a, Bool(v == Nil || v == Bool(false))))
      && (Returns(m, code, body, And(x, y), a) ==> Gives(m, code, a, if v == Nil || v == Bool(false) then v else w))
      && (Returns(m, code, body, Or(x, y), a) ==> Gives(m, code, a, if v == Nil || v == Bool(false) then w else v))
  {
    hide Gives, Exec;
  }

  /** Two assignments, one behind the other, and a variable returned. */
  lemma AssignmentsGive(m: Rules, code: Code, r1: Reg, i: Reg, r2: Reg, j: Reg, q: Reg, a: Regs)
    requires Returns(m, code, [Assign(r1, Local(i)), Assign(r2, Local(j))], Local(q), a)
    ensures Gives(m, code, a,
      if q == r2 then (if j == r1 then a[i] else a[j]) else if q == r1 then a[i] else a[q])
  {
    hide Gives;
    var s1, s2 := Assign(r1, Local(i)), Assign(r2, Local(j));
    assert [s1] + [s2] == [s1, s2] && [s2] + [] == [s2];
    ExecFirst(m, s1, [s2], a);
    ExecFirst(m, s2, [], a[r1 := a[i]]);
  }

  lemma ReturnsValue(p: Program, q: Program, code: Code, body: seq<Assign>, x: Expr, r: Reg, n: nat)
    requires Does(p, body, n) && p <= q && Means(q, |p|, VNonReloc, r, Set([]), Set([]), x, n) && Scoped(x, n)
    requires Refines(code, q + [Do(Return(r, 2))], {})
    ensures forall m: Rules, a: Regs :: Returns(m, code, body, x, a)
  {
    var all := q + [Do(Return(r, 2))];
    assert Agrees(code, all, {}, |q|);
    assert p[..|p|] == all[..|p|];
    assert q[..|q|] == all[..|q|];
    forall m: Rules, a: Regs
      ensures Returns(m, code, body, x, a)
    {
      hide Run, Means, Reaches, Refines;
      assert Doing(m, p, body, n, a);
      RunSame(m, p, all, 0, |p|, a);
      RunOn(m, all, 0, |p|, |q|, a);
      var o := Run(m, p, 0, |p|, a);
      MeansRight(m, q, |p|, r, x, n, o.regs);
      RunSame(m, q, all, |p|, |q|, o.regs);
      EvalKeeps(m, x, Exec(m, body, a), o.regs, n);
      MachineRuns(m, code, all, 0, |q|, a);
      assert GivesWith(m, code, a, Eval(m, x, Exec(m, body, a)), Run(m, all, 0, |q|, a).regs);
    }
  }

  lemma MeansRight(m: Rules, q: Program, s: nat, r: Reg, x: Expr, n: nat, a: Regs)
    requires Means(q, s, VNonReloc, r, Set([]), Set([]), x, n)
    ensures var o := Run(m, q, s, |q|, a); o.At? && o.regs[r] == Eval(m, x, a)
  {
    assert Right(m, q, s, VNonReloc, r, Set([]), Set([]), x, n, a);
  }

  /** The code of a function that assigns and returns one value does, for every
      comparison the machine may be given and whatever the registers hold, what
      its source says. */
  method CompileFunction(params: nat, body: seq<Assign>, x: Expr) returns (s: Status, code: Code)
    requires params < MAXSTACK && AllScoped(body, params) && Scoped(x, params)
    ensures s.Success? ==> forall m: Rules, a: Regs :: Returns(m, code, body, x, a)
    ensures BodyNeed(body, |body|) + CodeNeed(x) + 5 < 131071 && params + RegNeed(x) < 250
            && (forall i :: 0 <= i < |body| ==> params + RegNeed(body[i].x) < 250)
            ==> s.Success?
  {
    hide Returns, Does, Means, Stored, Refines, Chain, KeepsOpen;
    code := [];
    var fs := new FuncState(params);
    DoesNothing(params);
    var i := 0;
    assert body[..0] == [];
    while i < |body|
      invariant 0 <= i <= |body| && fresh(fs) && fs.AtStatement(params)
      invariant Does(fs.prog, body[..i], params) && |fs.code| <= BodyNeed(body, i)
    {
      ghost var p := fs.prog;
      BodyNeedGrows(body, i + 1, |body|);
      :- fs.Assignment(body[i].r, body[i].x);
      DoesMore(p, fs.prog, body[..i], body[i], params);
      assert body[..i] + [body[i]] == body[..i + 1];
      i := i + 1;
    }
    assert body[..i] == body;
    ghost var p := fs.prog;
    var r;
    ghost var q;
    r, q :- fs.ReturnStat(x);
    ReturnsValue(p, q, fs.code, body, x, r, params);
    code := fs.code;
    s := Success;
  }
}
