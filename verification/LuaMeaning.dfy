/** What an expression means, and what it means that generated code computes it. */
module LuaMeaning {
  import opened LuaProgram

  datatype RelOp = Equal | NotEqual | Less | LessEq | Greater | GreaterEq

  datatype Expr =
    | Local(r: Reg)
    | Rel(op: RelOp, x: Expr, y: Expr)
    | Neg(x: Expr)
    | And(x: Expr, y: Expr)
    | Or(x: Expr, y: Expr)

  /** The value of an expression by the rules of the language. */
  function Eval(m: Rules, x: Expr, regs: Regs): Value {
    match x
    case Local(r) => regs[r]
    case Rel(op, y, z) => Bool(Related(m, op, Eval(m, y, regs), Eval(m, z, regs)))
    case Neg(y) => Bool(IsFalse(Eval(m, y, regs)))
    case And(y, z) => var v := Eval(m, y, regs); if IsFalse(v) then v else Eval(m, z, regs)
    case Or(y, z) => var v := Eval(m, y, regs); if IsFalse(v) then Eval(m, z, regs) else v
  }

  function Related(m: Rules, op: RelOp, a: Value, b: Value): bool {
    match op
    case Equal => m.eq(a, b)
    case NotEqual => !m.eq(a, b)
    case Less => m.lt(a, b)
    case LessEq => m.le(a, b)
    case Greater => m.lt(b, a)
    case GreaterEq => m.le(b, a)
  }

  /** All variables are among the first `n` registers. */
  predicate Scoped(x: Expr, n: nat) {
    match x
    case Local(r) => r < n
    case Rel(_, y, z) => Scoped(y, n) && Scoped(z, n)
    case Neg(y) => Scoped(y, n)
    case And(y, z) => Scoped(y, n) && Scoped(z, n)
    case Or(y, z) => Scoped(y, n) && Scoped(z, n)
  }

  /** The registers below `n` are what they were. */
  ghost predicate Keeps(a: Regs, b: Regs, n: nat) {
    forall i :: 0 <= i < n && i < 256 ==> b[i] == a[i]
  }

  lemma {:induction false} EvalKeeps(m: Rules, x: Expr, a: Regs, b: Regs, n: nat)
    requires Scoped(x, n) && Keeps(a, b, n)
    ensures Eval(m, x, a) == Eval(m, x, b)
  {
    match x
    case Local(_) =>
    case Rel(_, y, z) => EvalKeeps(m, y, a, b, n); EvalKeeps(m, z, a, b, n);
    case Neg(y) => EvalKeeps(m, y, a, b, n);
    case And(y, z) => EvalKeeps(m, y, a, b, n); EvalKeeps(m, z, a, b, n);
    case Or(y, z) => EvalKeeps(m, y, a, b, n); EvalKeeps(m, z, a, b, n);
  }

  /** Where the value of an expression is. */
  datatype Kind = VLocal | VNonReloc | VReloc | VJmp

  /** A run of the code stops before the instruction the value waits in. */
  function Stop(k: Kind, info: nat, prog: Program): nat {
    match k
    case VReloc => info
    case VJmp => if info == 0 then 0 else info - 1
    case _ => |prog|
  }

  /** The descriptor fits the end of the program. */
  ghost predicate Formed(prog: Program, s: nat, k: Kind, info: nat) {
    match k
    case VReloc => s <= info == |prog| - 1 && prog[info].Do? && prog[info].i.Not?
    case VJmp => s < info == |prog| - 1 && prog[info] == Go(Open) && prog[info - 1].Do? && prog[info - 1].i.Cmp?
    case _ => info < 256
  }

  /** What the value is once a run has stopped. */
  function Waiting(m: Rules, prog: Program, k: Kind, info: nat, regs: Regs): Value
    requires info < |prog| || k.VLocal? || k.VNonReloc?
  {
    match k
    case VReloc => if prog[info].Do? && prog[info].i.Not? then Bool(IsFalse(regs[prog[info].i.b])) else Nil
    case VJmp =>
      if 0 < info && prog[info - 1].Do? && IsTest(prog[info - 1].i) then Bool(Holds(m, prog[info - 1].i, regs)) else Nil
    case _ => if info < 256 then regs[info] else Nil
  }

  /** What a jump out brings along: the value its test copies, or its truth. */
  function Payload(prog: Program, j: nat, truth: bool, regs: Regs): Value {
    if Copies(prog, j) then regs[prog[j - 1].i.b] else Bool(truth)
  }

  predicate Leaves(prog: Program, j: nat, truth: bool, regs: Regs, v: Value) {
    IsFalse(v) != truth && Payload(prog, j, truth, regs) == v
  }

  /** A run that left by a jump of one of the lists did so with the value. */
  ghost predicate LeavesRight(prog: Program, ts: set<nat>, fs: set<nat>, base: nat, a: Regs, v: Value, o: Outcome) {
    o.Exit? ==> Keeps(a, o.regs, base) && (o.jump in ts || o.jump in fs) && Leaves(prog, o.jump, o.jump in ts, o.regs, v)
  }

  ghost predicate Right(m: Rules, prog: Program, s: nat, k: Kind, info: nat, ts: set<nat>, fs: set<nat>,
                        x: Expr, base: nat, a: Regs)
    requires Formed(prog, s, k, info)
  {
    var o, v := Run(m, prog, s, Stop(k, info, prog), a), Eval(m, x, a);
    && o != Bad && LeavesRight(prog, ts, fs, base, a, v, o)
    && (o.At? ==> Keeps(a, o.regs, base) && Waiting(m, prog, k, info, o.regs) == v)
  }

  /** The code from `s` on computes `x`: a run leaves by `ts` with a true value,
      by `fs` with a false one, or stops where the value waits. */
  ghost predicate Means(prog: Program, s: nat, k: Kind, info: nat, ts: set<nat>, fs: set<nat>, x: Expr, base: nat) {
    && Formed(prog, s, k, info) && s <= |prog|
    && forall m: Rules, a: Regs :: Right(m, prog, s, k, info, ts, fs, x, base, a)
  }

  ghost predicate Sorts(m: Rules, prog: Program, s: nat, ts: set<nat>, fs: set<nat>, x: Expr, base: nat,
                        sense: bool, a: Regs)
  {
    var o, v := Run(m, prog, s, |prog|, a), Eval(m, x, a);
    && o != Bad && LeavesRight(prog, ts, fs, base, a, v, o)
    && (o.At? ==> Keeps(a, o.regs, base) && IsFalse(v) != sense)
  }

  /** The code goes on to its end just when it neither leaves nor `x` is other than `sense`. */
  ghost predicate Branches(prog: Program, s: nat, ts: set<nat>, fs: set<nat>, x: Expr, base: nat, sense: bool) {
    && s <= |prog|
    && forall m: Rules, a: Regs :: Sorts(m, prog, s, ts, fs, x, base, sense, a)
  }

  lemma LocalMeans(prog: Program, r: Reg, base: nat)
    ensures Means(prog, |prog|, VLocal, r, {}, {}, Local(r), base)
    ensures Means(prog, |prog|, VNonReloc, r, {}, {}, Local(r), base)
  {
  }

  lemma RunTest(m: Rules, prog: Program, pc: nat, regs: Regs)
    requires |prog| == pc + 2 && prog[pc].Do? && IsTest(prog[pc].i) && prog[pc + 1] == Go(Open)
    ensures Run(m, prog, pc, |prog|, regs) == if Holds(m, prog[pc].i, regs) then Exit(pc + 1, regs) else At(regs)
  {
    assert Run(m, prog, pc + 2, |prog|, regs) == At(regs);
  }

  /** A comparison's jump becomes one of the list for true. */
  lemma JumpBranches(prog: Program, s: nat, info: nat, ts: set<nat>, fs: set<nat>, x: Expr, base: nat)
    requires Means(prog, s, VJmp, info, ts, fs, x, base) && info !in fs
    ensures Branches(prog, s, ts + {info}, fs, x, base, false)
  {
    forall m: Rules, a: Regs
      ensures Sorts(m, prog, s, ts + {info}, fs, x, base, false, a)
    {
      assert Right(m, prog, s, VJmp, info, ts, fs, x, base, a);
      RunOn(m, prog, s, info - 1, |prog|, a);
      var o := Run(m, prog, s, info - 1, a);
      if o.At? { RunTest(m, prog, info - 1, o.regs); }
    }
  }

  /** The comparison the other way round. */
  function Inverted(prog: Program, at: nat): Program
    requires at < |prog| && prog[at].Do? && prog[at].i.Cmp?
  {
    var i := prog[at].i;
    prog[at := Do(Cmp(i.op, !i.cond, i.b, i.c))]
  }

  lemma InvertedBranches(prog: Program, s: nat, info: nat, ts: set<nat>, fs: set<nat>, x: Expr, base: nat)
    requires Means(prog, s, VJmp, info, ts, fs, x, base) && info !in ts
    requires forall j :: j in ts || j in fs ==> j < info
    ensures Branches(Inverted(prog, info - 1), s, ts, fs + {info}, x, base, true)
  {
    var q := Inverted(prog, info - 1);
    forall m: Rules, a: Regs
      ensures Sorts(m, q, s, ts, fs + {info}, x, base, true, a)
    {
      assert Right(m, prog, s, VJmp, info, ts, fs, x, base, a);
      RunSame(m, prog, q, s, info - 1, a);
      RunOn(m, q, s, info - 1, |q|, a);
      var o := Run(m, q, s, info - 1, a);
      if o.At? { RunTest(m, q, info - 1, o.regs); }
    }
  }

  /** `not` in front of a test is done by testing for the opposite. */
  lemma NotBranches(prog: Program, s: nat, info: nat, ts: set<nat>, fs: set<nat>, x: Expr, base: nat, sense: bool)
    requires Means(prog, s, VReloc, info, ts, fs, x, base)
    requires forall j :: j in ts || j in fs ==> j < info
    ensures var j := info + 1;
            Branches(prog[..info] + [Do(Test(prog[info].i.b, sense)), Go(Open)], s,
                     if sense then ts else ts + {j}, if sense then fs + {j} else fs, x, base, sense)
  {
    var j, q := info + 1, prog[..info] + [Do(Test(prog[info].i.b, sense)), Go(Open)];
    var ts', fs' := if sense then ts else ts + {j}, if sense then fs + {j} else fs;
    forall m: Rules, a: Regs
      ensures Sorts(m, q, s, ts', fs', x, base, sense, a)
    {
      assert Right(m, prog, s, VReloc, info, ts, fs, x, base, a);
      assert q[..info] == prog[..info];
      RunSame(m, prog, q, s, info, a);
      RunOn(m, q, s, info, |q|, a);
      var o := Run(m, q, s, info, a);
      if o.At? { RunTest(m, q, info, o.regs); }
    }
  }

  /** A value in a register is tested, and copied should it be the result. */
  lemma RegBranches(prog: Program, s: nat, k: Kind, r: Reg, ts: set<nat>, fs: set<nat>, x: Expr, base: nat, sense: bool)
    requires Means(prog, s, k, r, ts, fs, x, base) && (k.VNonReloc? || k.VLocal?)
    requires forall j :: j in ts || j in fs ==> j < |prog|
    ensures var j := |prog| + 1;
            Branches(prog + [Do(TestSet(NO_REG, r, !sense)), Go(Open)], s,
                     if sense then ts else ts + {j}, if sense then fs + {j} else fs, x, base, sense)
  {
    var j, q := |prog| + 1, prog + [Do(TestSet(NO_REG, r, !sense)), Go(Open)];
    var ts', fs' := if sense then ts else ts + {j}, if sense then fs + {j} else fs;
    forall m: Rules, a: Regs
      ensures Sorts(m, q, s, ts', fs', x, base, sense, a)
    {
      assert Right(m, prog, s, k, r, ts, fs, x, base, a);
      assert q[..|prog|] == prog[..|prog|];
      RunSame(m, prog, q, s, |prog|, a);
      RunOn(m, q, s, |prog|, |q|, a);
      var o := Run(m, q, s, |prog|, a);
      if o.At? { RunTest(m, q, |prog|, o.regs); }
    }
  }

  /** All of `js` go to `d`, and their tests copy nothing any more. */
  function Closed(prog: Program, js: set<nat>, d: nat): (q: Program)
    ensures |q| == |prog|
  {
    seq(|prog|, k requires 0 <= k < |prog| =>
      if k in js then Go(To(d)) else if k + 1 in js then Plain(prog[k]) else prog[k])
  }

  /** A test that copies becomes one that does not. */
  function Plain(op: Op): Op {
    if op.Do? && op.i.TestSet? then Do(Test(op.i.b, op.i.cond)) else op
  }

  /** The tests of `js` copy nothing any more. */
  function Retest(prog: Program, js: set<nat>): (q: Program)
    ensures |q| == |prog|
  {
    seq(|prog|, k requires 0 <= k < |prog| => if k + 1 in js then Plain(prog[k]) else prog[k])
  }

  ghost predicate OpenIn(prog: Program, js: set<nat>) {
    forall j :: j in js ==> IsOpen(prog, j)
  }

  predicate IsOpen(prog: Program, j: nat) { j < |prog| && prog[j] == Go(Open) }

  lemma ClosedSettles(prog: Program, js: set<nat>, d: nat)
    requires OpenIn(prog, js) && d == |prog|
    ensures Settled(prog, Closed(prog, js, d), js, d)
  {
  }

  lemma RetestRetests(prog: Program, js: set<nat>)
    requires OpenIn(prog, js)
    ensures Retested(prog, Retest(prog, js), js)
  {
  }

  /** Closing one list to the end leaves the other. */
  lemma ClosedBranches(prog: Program, s: nat, ts: set<nat>, fs: set<nat>, x: Expr, base: nat, sense: bool)
    requires Branches(prog, s, ts, fs, x, base, sense) && OpenIn(prog, ts) && OpenIn(prog, fs) && ts !! fs
    ensures Branches(Closed(prog, if sense then ts else fs, |prog|), s,
                     if sense then {} else ts, if sense then fs else {}, x, base, sense)
  {
    hide Closed;
    var q := Closed(prog, if sense then ts else fs, |prog|);
    var ts', fs' := if sense then {} else ts, if sense then fs else {};
    forall m: Rules, a: Regs
      ensures Sorts(m, q, s, ts', fs', x, base, sense, a)
    {
      assert Sorts(m, prog, s, ts, fs, x, base, sense, a);
      ClosedSorts(m, prog, s, ts, fs, x, base, sense, a);
    }
  }

  lemma ClosedSorts(m: Rules, prog: Program, s: nat, ts: set<nat>, fs: set<nat>, x: Expr, base: nat, sense: bool,
                    a: Regs)
    requires Sorts(m, prog, s, ts, fs, x, base, sense, a) && s <= |prog|
    requires OpenIn(prog, ts) && OpenIn(prog, fs) && ts !! fs
    ensures Sorts(m, Closed(prog, if sense then ts else fs, |prog|), s,
                  if sense then {} else ts, if sense then fs else {}, x, base, sense, a)
  {
    hide Closed, Run, Eval, Keeps, After;
    var js := if sense then ts else fs;
    var q := Closed(prog, js, |prog|);
    ClosedSettles(prog, js, |prog|);
    RunSettled(m, prog, q, js, s, |prog|, a);
    var o := Run(m, prog, s, |prog|, a);
    if o.Exit? {
      ClosedPayload(prog, js, o, o.jump in ts);
      RunNowhere(m, q, |prog|, o.regs);
    }
  }

  lemma RunNowhere(m: Rules, prog: Program, pc: nat, regs: Regs)
    ensures Run(m, prog, pc, pc, regs) == At(regs)
  {
  }

  lemma ClosedPayload(prog: Program, js: set<nat>, o: Outcome, truth: bool)
    requires o.Exit? && OpenIn(prog, js) && IsOpen(prog, o.jump)
    ensures var q := Closed(prog, js, |prog|);
            if o.jump in js then
              q[o.jump] == Go(To(|prog|)) && (Controlled(q, o.jump) ==> After(q[o.jump - 1].i, o.regs) == o.regs)
            else Payload(q, o.jump, truth, o.regs) == Payload(prog, o.jump, truth, o.regs)
  {
    var j := o.jump;
    if j > 0 {
      assert j - 1 in js ==> IsOpen(prog, j - 1);
    }
  }

  function Joined(sense: bool, x: Expr, y: Expr): Expr {
    if sense then And(x, y) else Or(x, y)
  }

  /** Behind code that goes on when `x` is true (false), code for `y` makes code
      for `x and y` (`x or y`). */
  lemma JoinedMeans(p: Program, q: Program, s: nat, js: set<nat>, x: Expr, sense: bool,
                    k: Kind, info: nat, ts: set<nat>, fs: set<nat>, y: Expr, base: nat)
    requires Branches(p, s, if sense then {} else js, if sense then js else {}, x, base, sense)
    requires p <= q && Means(q, |p|, k, info, ts, fs, y, base) && Scoped(y, base)
    requires forall j :: j in js ==> j < |p|
    requires forall j :: j in ts || j in fs ==> j >= |p|
    ensures Means(q, s, k, info, if sense then ts else ts + js, if sense then fs + js else fs, Joined(sense, x, y), base)
  {
    var ts', fs' := if sense then ts else ts + js, if sense then fs + js else fs;
    forall m: Rules, a: Regs
      ensures Right(m, q, s, k, info, ts', fs', Joined(sense, x, y), base, a)
    {
      hide Run, Keeps, Means, Branches;
      JoinedRight(m, p, q, s, js, x, sense, k, info, ts, fs, y, base, a);
    }
  }

  lemma KeepsOn(a: Regs, b: Regs, c: Regs, n: nat)
    requires Keeps(a, b, n) && Keeps(b, c, n)
    ensures Keeps(a, c, n)
  {
  }

  lemma FormedStop(prog: Program, s: nat, k: Kind, info: nat)
    requires Formed(prog, s, k, info) && s <= |prog|
    ensures s <= Stop(k, info, prog) <= |prog|
  {
  }

  lemma SamePayload(p: Program, q: Program, j: nat, truth: bool, regs: Regs)
    requires p <= q && j < |p|
    ensures Payload(p, j, truth, regs) == Payload(q, j, truth, regs)
  {
    assert j > 0 ==> p[j - 1] == q[j - 1];
  }

  lemma JoinedRight(m: Rules, p: Program, q: Program, s: nat, js: set<nat>, x: Expr, sense: bool,
                    k: Kind, info: nat, ts: set<nat>, fs: set<nat>, y: Expr, base: nat, a: Regs)
    requires Branches(p, s, if sense then {} else js, if sense then js else {}, x, base, sense)
    requires p <= q && Means(q, |p|, k, info, ts, fs, y, base) && Scoped(y, base)
    requires forall j :: j in js ==> j < |p|
    requires forall j :: j in ts || j in fs ==> j >= |p|
    requires Formed(q, s, k, info)
    ensures Right(m, q, s, k, info, if sense then ts else ts + js, if sense then fs + js else fs, Joined(sense, x, y), base, a)
  {
    hide Run, Keeps, Formed, Stop, Waiting, Payload;
    var ts1, fs1 := if sense then {} else js, if sense then js else {};
    assert Sorts(m, p, s, ts1, fs1, x, base, sense, a);
    var stop := Stop(k, info, q);
    FormedStop(q, |p|, k, info);
    assert p[..|p|] == q[..|p|];
    RunSame(m, p, q, s, |p|, a);
    RunOn(m, q, s, |p|, stop, a);
    var o := Run(m, p, s, |p|, a);
    if o.At? {
      EvalKeeps(m, y, a, o.regs, base);
      assert Right(m, q, |p|, k, info, ts, fs, y, base, o.regs);
      var o2 := Run(m, q, |p|, stop, o.regs);
      KeepsOn(a, o.regs, o2.regs, base);
    } else {
      SamePayload(p, q, o.jump, o.jump in ts1, o.regs);
    }
  }

  lemma RetestPayload(prog: Program, js: set<nat>, j: nat, truth: bool, regs: Regs)
    requires OpenIn(prog, js) && j in js
    ensures Payload(Retest(prog, js), j, truth, regs) == Bool(truth)
  {
    assert IsOpen(prog, j);
  }

  /** `not` before a comparison inverts it and exchanges the lists. */
  lemma NegJump(prog: Program, s: nat, info: nat, ts: set<nat>, fs: set<nat>, x: Expr, base: nat)
    requires Means(prog, s, VJmp, info, ts, fs, x, base) && ts !! fs
    requires OpenIn(prog, ts) && OpenIn(prog, fs) && info !in ts + fs
    ensures Means(Retest(Inverted(prog, info - 1), ts + fs), s, VJmp, info, fs, ts, Neg(x), base)
  {
    var p := Inverted(prog, info - 1);
    var q := Retest(p, ts + fs);
    assert OpenIn(p, ts + fs) by { forall j | j in ts + fs ensures IsOpen(p, j) { assert IsOpen(prog, j); } }
    RetestRetests(p, ts + fs);
    assert q[info - 1] == p[info - 1] && q[info] == Go(Open);
    forall m: Rules, a: Regs
      ensures Right(m, q, s, VJmp, info, fs, ts, Neg(x), base, a)
    {
      hide Run, Keeps, Means, Retest, Payload, Retested;
      assert Right(m, prog, s, VJmp, info, ts, fs, x, base, a);
      RunSame(m, prog, p, s, info - 1, a);
      RunRetested(m, p, q, ts + fs, s, info - 1, a);
      var o := Run(m, prog, s, info - 1, a);
      if o.Exit? { RetestPayload(p, ts + fs, o.jump, o.jump in fs, o.regs); }
    }
  }

  /** `not` of a value in a register. */
  lemma NegReg(prog: Program, s: nat, k: Kind, r: Reg, ts: set<nat>, fs: set<nat>, x: Expr, base: nat)
    requires Means(prog, s, k, r, ts, fs, x, base) && (k.VLocal? || k.VNonReloc?) && ts !! fs
    requires OpenIn(prog, ts) && OpenIn(prog, fs)
    ensures Means(Retest(prog + [Do(Not(0, r))], ts + fs), s, VReloc, |prog|, fs, ts, Neg(x), base)
  {
    var p := prog + [Do(Not(0, r))];
    var q := Retest(p, ts + fs);
    assert OpenIn(p, ts + fs) by { forall j | j in ts + fs ensures IsOpen(p, j) { assert IsOpen(prog, j); } }
    RetestRetests(p, ts + fs);
    assert q[|prog|] == p[|prog|];
    assert p[..|prog|] == prog[..|prog|];
    forall m: Rules, a: Regs
      ensures Right(m, q, s, VReloc, |prog|, fs, ts, Neg(x), base, a)
    {
      hide Run, Keeps, Means, Retest, Payload, Retested;
      assert Right(m, prog, s, k, r, ts, fs, x, base, a);
      RunSame(m, prog, p, s, |prog|, a);
      RunRetested(m, p, q, ts + fs, s, |prog|, a);
      var o := Run(m, prog, s, |prog|, a);
      if o.Exit? { RetestPayload(p, ts + fs, o.jump, o.jump in fs, o.regs); }
    }
  }

  /** The instruction the value waits in is given its register. */
  function Relocated(prog: Program, info: nat, r: Reg): (q: Program)
    requires info < |prog| && prog[info].Do? && prog[info].i.Not?
    ensures |q| == |prog|
  {
    prog[info := Do(Not(r, prog[info].i.b))]
  }

  lemma RunLast(m: Rules, prog: Program, i: Instr, regs: Regs)
    requires |prog| > 0 && prog[|prog| - 1] == Do(i) && !IsTest(i) && !i.Jmp? && !i.Return? && !i.LoadBool?
    ensures Run(m, prog, |prog| - 1, |prog|, regs) == At(After(i, regs))
  {
    RunNowhere(m, prog, |prog|, After(i, regs));
  }

  /** Getting the value into a register above those in use. */
  lemma RelocatedMeans(prog: Program, s: nat, info: nat, ts: set<nat>, fs: set<nat>, x: Expr, base: nat, r: Reg)
    requires Means(prog, s, VReloc, info, ts, fs, x, base) && r >= base
    requires forall j :: j in ts || j in fs ==> j < info
    ensures Means(Relocated(prog, info, r), s, VNonReloc, r, ts, fs, x, base)
  {
    RelocatedHeld(prog, s, info, ts, fs, x, base, r);
    var q := Relocated(prog, info, r);
    forall m: Rules, a: Regs
      ensures Right(m, q, s, VNonReloc, r, ts, fs, x, base, a)
    {
      assert Holding(m, q, s, r, ts, fs, x, base, a);
    }
  }

  /** Nothing below `n` but `r` has changed. */
  ghost predicate KeepsBut(a: Regs, b: Regs, n: nat, r: Reg) {
    forall i :: 0 <= i < n && i < 256 && i != r ==> b[i] == a[i]
  }

  ghost predicate Holding(m: Rules, prog: Program, s: nat, r: Reg, ts: set<nat>, fs: set<nat>, x: Expr, base: nat, a: Regs) {
    var o, v := Run(m, prog, s, |prog|, a), Eval(m, x, a);
    && o != Bad && LeavesRight(prog, ts, fs, base, a, v, o)
    && (o.At? ==> KeepsBut(a, o.regs, base, r) && o.regs[r] == v)
  }

  /** A run that does not leave ends with the value in `r`, whatever `r` is. */
  ghost predicate Held(prog: Program, s: nat, r: Reg, ts: set<nat>, fs: set<nat>, x: Expr, base: nat) {
    && s <= |prog|
    && forall m: Rules, a: Regs :: Holding(m, prog, s, r, ts, fs, x, base, a)
  }

  lemma RelocatedHeld(prog: Program, s: nat, info: nat, ts: set<nat>, fs: set<nat>, x: Expr, base: nat, r: Reg)
    requires Means(prog, s, VReloc, info, ts, fs, x, base)
    requires forall j :: j in ts || j in fs ==> j < info
    ensures Held(Relocated(prog, info, r), s, r, ts, fs, x, base)
  {
    var q := Relocated(prog, info, r);
    forall m: Rules, a: Regs
      ensures Holding(m, q, s, r, ts, fs, x, base, a)
    {
      hide Run, Means;
      assert Right(m, prog, s, VReloc, info, ts, fs, x, base, a);
      RunSame(m, prog, q, s, info, a);
      RunOn(m, q, s, info, |q|, a);
      var o := Run(m, prog, s, info, a);
      if o.At? { RunLast(m, q, Not(r, prog[info].i.b), o.regs); }
    }
  }

  lemma MovedHeld(prog: Program, s: nat, k: Kind, b: Reg, ts: set<nat>, fs: set<nat>, x: Expr, base: nat, r: Reg)
    requires Means(prog, s, k, b, ts, fs, x, base) && (k.VLocal? || k.VNonReloc?)
    requires forall j :: j in ts || j in fs ==> j < |prog|
    ensures Held(if b == r then prog else prog + [Do(Move(r, b))], s, r, ts, fs, x, base)
  {
    var q := if b == r then prog else prog + [Do(Move(r, b))];
    forall m: Rules, a: Regs
      ensures Holding(m, q, s, r, ts, fs, x, base, a)
    {
      hide Run, Means;
      assert Right(m, prog, s, k, b, ts, fs, x, base, a);
      if b != r {
        assert q[..|prog|] == prog[..|prog|];
        RunSame(m, prog, q, s, |prog|, a);
        RunOn(m, q, s, |prog|, |q|, a);
        var o := Run(m, prog, s, |prog|, a);
        if o.At? { RunLast(m, q, Move(r, b), o.regs); }
      }
    }
  }

  /** The comparison instruction for an operator: greater is less the other way
      round, and only equality can be tested for not holding. */
  function Comparison(op: RelOp, b: Reg, c: Reg): Instr {
    match op
    case Equal => Cmp(EQ, true, b, c)
    case NotEqual => Cmp(EQ, false, b, c)
    case Less => Cmp(LT, true, b, c)
    case LessEq => Cmp(LE, true, b, c)
    case Greater => Cmp(LT, true, c, b)
    case GreaterEq => Cmp(LE, true, c, b)
  }

  /** The program ends with the comparison for `op` of the left operand in `b`
      with another register, and its jump. */
  predicate ComparesLast(p: Program, op: RelOp, b: nat) {
    && |p| >= 2 && p[|p| - 2].Do? && p[|p| - 2].i.Cmp? && p[|p| - 1] == Go(Open)
    && var i := p[|p| - 2].i;
       match op
       case Equal => i.op == EQ && i.cond && i.b == b
       case NotEqual => i.op == EQ && !i.cond && i.b == b
       case Less => i.op == LT && i.cond && i.b == b
       case LessEq => i.op == LE && i.cond && i.b == b
       case Greater => i.op == LT && i.cond && i.c == b
       case GreaterEq => i.op == LE && i.cond && i.c == b
  }

  lemma ComparisonLast(p: Program, op: RelOp, b: Reg, c: Reg)
    ensures ComparesLast(p + [Do(Comparison(op, b, c)), Go(Open)], op, b)
  {
  }

  /** Both operands computed one behind the other, and compared. */
  lemma ComparedMeans(p: Program, q: Program, s: nat, b: Reg, c: Reg, op: RelOp, x: Expr, y: Expr,
                      base: nat, base2: nat)
    requires Means(p, s, VNonReloc, b, {}, {}, x, base) && p <= q
    requires Means(q, |p|, VNonReloc, c, {}, {}, y, base2) && Scoped(y, base) && base <= base2 && b < base2
    ensures Means(q + [Do(Comparison(op, b, c)), Go(Open)], s, VJmp, |q| + 1, {}, {}, Rel(op, x, y), base)
  {
    var r, info := q + [Do(Comparison(op, b, c)), Go(Open)], |q| + 1;
    assert p[..|p|] == r[..|p|];
    assert q[..|q|] == r[..|q|];
    forall m: Rules, a: Regs
      ensures Right(m, r, s, VJmp, info, {}, {}, Rel(op, x, y), base, a)
    {
      hide Run, Means;
      assert Right(m, p, s, VNonReloc, b, {}, {}, x, base, a);
      RunSame(m, p, r, s, |p|, a);
      RunOn(m, r, s, |p|, |q|, a);
      var o1 := Run(m, p, s, |p|, a);
      EvalKeeps(m, y, a, o1.regs, base);
      assert Right(m, q, |p|, VNonReloc, c, {}, {}, y, base2, o1.regs);
      RunSame(m, q, r, |p|, |q|, o1.regs);
    }
  }

  /** Where a jump with a true or false result is sent: past the labels if its
      test copies the value, else to the label that loads the truth. */
  function Target(prog: Program, j: nat, truth: bool, pf: nat, pt: nat): nat {
    if Copies(prog, j) then |prog| else if truth then pt else pf
  }

  predicate Copies(prog: Program, j: nat) { Controlled(prog, j) && prog[j - 1].i.TestSet? }

  /** A test that copies now copies to `r`, if the value is not there already. */
  function Aimed(op: Op, r: Reg): Op {
    if op.Do? && op.i.TestSet? then
      if op.i.b != r then Do(TestSet(r, op.i.b, op.i.cond)) else Plain(op)
    else op
  }

  /** Both lists patched to leave the value in `r`. */
  function Sent(prog: Program, ts: set<nat>, fs: set<nat>, r: Reg, pf: nat, pt: nat): (q: Program)
    ensures |q| == |prog|
  {
    seq(|prog|, k requires 0 <= k < |prog| =>
      if k in ts then Go(To(Target(prog, k, true, pf, pt)))
      else if k in fs then Go(To(Target(prog, k, false, pf, pt)))
      else if k + 1 in ts || k + 1 in fs then Aimed(prog[k], r)
      else prog[k])
  }

  /** The label at `p` loads `truth` into `r` and goes to the end. */
  predicate Loads(prog: Program, p: nat, r: Reg, truth: bool) {
    && p < |prog| && prog[p] == Do(LoadBool(r, truth, p + 2 == |prog|))
    && (p + 1 == |prog| || p + 2 == |prog|)
  }

  /** Labels are where the lists need them. */
  ghost predicate Labelled(prog: Program, js: set<nat>, truth: bool, r: Reg, pf: nat, pt: nat) {
    forall j :: j in js ==> IsOpen(prog, j) && LabelFor(prog, j, truth, r, pf, pt)
  }

  predicate LabelFor(prog: Program, j: nat, truth: bool, r: Reg, pf: nat, pt: nat) {
    Copies(prog, j) ||
    (j < Target(prog, j, truth, pf, pt) && Loads(prog, Target(prog, j, truth, pf, pt), r, truth))
  }

  ghost predicate Stored(prog: Program, s: nat, r: Reg, x: Expr, base: nat) {
    && s <= |prog|
    && forall m: Rules, a: Regs :: Storing(m, prog, s, r, x, base, a)
  }

  /** Whatever the registers held, the code ends with the value in `r` and
      nothing else below `base` changed. */
  ghost predicate Storing(m: Rules, prog: Program, s: nat, r: Reg, x: Expr, base: nat, a: Regs) {
    var o := Run(m, prog, s, |prog|, a);
    o.At? && KeepsBut(a, o.regs, base, r) && o.regs[r] == Eval(m, x, a)
  }

  lemma SentSettles(prog: Program, ts: set<nat>, fs: set<nat>, r: Reg, pf: nat, pt: nat)
    requires Labelled(prog, ts, true, r, pf, pt) && Labelled(prog, fs, false, r, pf, pt)
    ensures Settled(prog, Sent(prog, ts, fs, r, pf, pt), ts + fs, |prog|)
  {
    var q := Sent(prog, ts, fs, r, pf, pt);
    forall j | j in ts + fs
      ensures j < |prog| && prog[j] == Go(Open) && q[j].Go? && q[j].d.To? && j < q[j].d.pc <= |prog|
    {
      assert IsOpen(prog, j);
      assert LabelFor(prog, j, j in ts, r, pf, pt);
    }
  }

  /** What a jump of the lists is after patching, and the test before it. */
  lemma SentJump(prog: Program, ts: set<nat>, fs: set<nat>, r: Reg, pf: nat, pt: nat, j: nat)
    requires Labelled(prog, ts, true, r, pf, pt) && Labelled(prog, fs, false, r, pf, pt) && j in ts + fs
    ensures var q := Sent(prog, ts, fs, r, pf, pt);
            && IsOpen(prog, j) && q[j] == Go(To(Target(prog, j, j in ts, pf, pt)))
            && (Controlled(q, j) <==> Controlled(prog, j))
            && (Controlled(q, j) ==> q[j - 1] == Aimed(prog[j - 1], r))
            && LabelFor(prog, j, j in ts, r, pf, pt)
  {
    assert IsOpen(prog, j);
    assert LabelFor(prog, j, j in ts, r, pf, pt);
    if j > 0 && (j - 1 in ts || j - 1 in fs) { assert IsOpen(prog, j - 1); }
  }

  lemma SentLabel(m: Rules, prog: Program, ts: set<nat>, fs: set<nat>, r: Reg, pf: nat, pt: nat,
                  p: nat, truth: bool, regs: Regs)
    requires Labelled(prog, ts, true, r, pf, pt) && Labelled(prog, fs, false, r, pf, pt) && Loads(prog, p, r, truth)
    ensures Run(m, Sent(prog, ts, fs, r, pf, pt), p, |prog|, regs) == At(regs[r := Bool(truth)])
  {
    var q := Sent(prog, ts, fs, r, pf, pt);
    assert q[p] == prog[p] by {
      assert p in ts || p in fs ==> IsOpen(prog, p);
    }
    RunNowhere(m, q, |prog|, regs[r := Bool(truth)]);
  }

  lemma SentStoring(m: Rules, prog: Program, s: nat, r: Reg, ts: set<nat>, fs: set<nat>, x: Expr, base: nat,
                    pf: nat, pt: nat, a: Regs)
    requires Holding(m, prog, s, r, ts, fs, x, base, a) && s <= |prog| && ts !! fs
    requires Labelled(prog, ts, true, r, pf, pt) && Labelled(prog, fs, false, r, pf, pt)
    ensures Storing(m, Sent(prog, ts, fs, r, pf, pt), s, r, x, base, a)
  {
    hide Run, Sent, Labelled, Eval;
    var q := Sent(prog, ts, fs, r, pf, pt);
    SentSettles(prog, ts, fs, r, pf, pt);
    RunSettled(m, prog, q, ts + fs, s, |prog|, a);
    var o := Run(m, prog, s, |prog|, a);
    if o.Exit? {
      var j := o.jump;
      SentJump(prog, ts, fs, r, pf, pt, j);
      if Copies(prog, j) {
        RunNowhere(m, q, |prog|, After(q[j - 1].i, o.regs));
      } else {
        SentLabel(m, prog, ts, fs, r, pf, pt, Target(prog, j, j in ts, pf, pt), j in ts, o.regs);
      }
    }
  }

  /** Patching the lists of an expression leaves its value in the register on every way. */
  lemma SentStored(prog: Program, s: nat, r: Reg, ts: set<nat>, fs: set<nat>, x: Expr, base: nat, pf: nat, pt: nat)
    requires Held(prog, s, r, ts, fs, x, base) && ts !! fs
    requires Labelled(prog, ts, true, r, pf, pt) && Labelled(prog, fs, false, r, pf, pt)
    ensures Stored(Sent(prog, ts, fs, r, pf, pt), s, r, x, base)
  {
    hide Sent, Labelled, Holding, Storing;
    var q := Sent(prog, ts, fs, r, pf, pt);
    forall m: Rules, a: Regs
      ensures Storing(m, q, s, r, x, base, a)
    {
      assert Holding(m, prog, s, r, ts, fs, x, base, a);
      SentStoring(m, prog, s, r, ts, fs, x, base, pf, pt, a);
    }
  }

  /** The two labels that load a truth value. */
  function Labels(r: Reg): Program {
    [Do(LoadBool(r, false, true)), Do(LoadBool(r, true, false))]
  }

  lemma LabelsLoad(prog: Program, r: Reg)
    ensures var q := prog + Labels(r);
            Loads(q, |prog|, r, false) && Loads(q, |prog| + 1, r, true)
  {
  }

  /** A value already in the register goes round the labels. */
  lemma RoundLabelsHeld(prog: Program, s: nat, r: Reg, ts: set<nat>, fs: set<nat>, x: Expr, base: nat)
    requires Held(prog, s, r, ts, fs, x, base) && (forall j :: j in ts || j in fs ==> j < |prog|)
    ensures Held(prog + [Go(To(|prog| + 3))] + Labels(r), s, r, ts, fs, x, base)
  {
    var q := prog + [Go(To(|prog| + 3))] + Labels(r);
    assert q[..|prog|] == prog[..|prog|] && q[|prog|] == Go(To(|prog| + 3));
    forall m: Rules, a: Regs
      ensures Holding(m, q, s, r, ts, fs, x, base, a)
    {
      hide Run, Labels;
      assert Holding(m, prog, s, r, ts, fs, x, base, a);
      RunSame(m, prog, q, s, |prog|, a);
      RunOn(m, q, s, |prog|, |q|, a);
      var o := Run(m, prog, s, |prog|, a);
      if o.At? { RunGoes(m, q, |prog|, o.regs); }
    }
  }

  lemma RunGoes(m: Rules, prog: Program, pc: nat, regs: Regs)
    requires pc < |prog| && prog[pc] == Go(To(|prog|))
    ensures Run(m, prog, pc, |prog|, regs) == At(regs)
  {
    RunNowhere(m, prog, |prog|, regs);
  }

  /** A comparison that falls through loads false. */
  lemma JumpLabelsHeld(prog: Program, s: nat, info: nat, r: Reg, ts: set<nat>, fs: set<nat>, x: Expr, base: nat)
    requires Means(prog, s, VJmp, info, ts, fs, x, base) && info !in fs
    requires forall j :: j in ts || j in fs ==> j < |prog|
    ensures Held(prog + Labels(r), s, r, ts + {info}, fs, x, base)
  {
    var q, ts' := prog + Labels(r), ts + {info};
    assert q[..info - 1] == prog[..info - 1];
    forall m: Rules, a: Regs
      ensures Holding(m, q, s, r, ts', fs, x, base, a)
    {
      hide Run, Means;
      assert Right(m, prog, s, VJmp, info, ts, fs, x, base, a);
      RunSame(m, prog, q, s, info - 1, a);
      RunOn(m, q, s, info - 1, |q|, a);
      var o := Run(m, prog, s, info - 1, a);
      if o.At? { RunPastTest(m, q, info - 1, r, o.regs); }
    }
  }

  lemma RunPastTest(m: Rules, prog: Program, pc: nat, r: Reg, regs: Regs)
    requires |prog| == pc + 4 && prog[pc].Do? && IsTest(prog[pc].i) && prog[pc + 1] == Go(Open)
    requires prog[pc + 2] == Do(LoadBool(r, false, true))
    ensures Run(m, prog, pc, |prog|, regs)
         == if Holds(m, prog[pc].i, regs) then Exit(pc + 1, regs) else At(regs[r := Bool(false)])
  {
    assert Run(m, prog, pc + 2, |prog|, regs) == At(regs[r := Bool(false)]) by {
      RunNowhere(m, prog, |prog|, regs[r := Bool(false)]);
    }
  }

  lemma ShortenedHeld(p: Program, q: Program, js: set<nat>, h: nat, s: nat, r: Reg, ts: set<nat>, fs: set<nat>,
                      x: Expr, base: nat)
    requires Held(p, s, r, ts, fs, x, base) && h < |p| && Shortened(p, q, js, h, |p|)
    ensures Held(q, s, r, ts, fs, x, base)
  {
    forall m: Rules, a: Regs
      ensures Holding(m, q, s, r, ts, fs, x, base, a)
    {
      hide Run, Shortened;
      assert Holding(m, p, s, r, ts, fs, x, base, a);
      RunShortened(m, p, q, js, h, |p|, s, |p|, a);
      var o := Run(m, p, s, |p|, a);
      if o.Exit? { ShortenedPayload(p, q, js, h, o.jump, o.jump in ts, o.regs); }
    }
  }

  lemma ShortenedPayload(p: Program, q: Program, js: set<nat>, h: nat, j: nat, truth: bool, regs: Regs)
    requires h < |p| && Shortened(p, q, js, h, |p|)
    ensures Payload(p, j, truth, regs) == Payload(q, j, truth, regs)
  {
    if 1 <= j < |p| { assert p[j - 1].Do? || q[j - 1].Do? ==> p[j - 1] == q[j - 1]; }
  }

  /** The value of a local variable is in its register. */
  lemma DischargedMeans(prog: Program, s: nat, r: nat, ts: set<nat>, fs: set<nat>, x: Expr, base: nat)
    requires Means(prog, s, VLocal, r, ts, fs, x, base)
    ensures Means(prog, s, VNonReloc, r, ts, fs, x, base)
  {
    forall m: Rules, a: Regs
      ensures Right(m, prog, s, VNonReloc, r, ts, fs, x, base, a)
    {
      assert Right(m, prog, s, VLocal, r, ts, fs, x, base, a);
    }
  }

  lemma StoredMeans(prog: Program, s: nat, r: Reg, x: Expr, base: nat)
    requires Stored(prog, s, r, x, base) && r >= base
    ensures Means(prog, s, VNonReloc, r, {}, {}, x, base)
  {
    forall m: Rules, a: Regs
      ensures Right(m, prog, s, VNonReloc, r, {}, {}, x, base, a)
    {
      assert Storing(m, prog, s, r, x, base, a);
    }
  }
}
