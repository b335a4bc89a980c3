/** Lists of jumps threaded through the jumps themselves, and how code with
    such lists stands for a program whose jumps are open. */
module LuaLists {
  import opened LuaProgram
  import opened LuaMeaning

  const NO_JUMP: int := -1
  const MAXARG_sBx: int := 131071

  type Code = seq<Instr>

  /** getjump: a jump to itself ends the list. */
  function Next(code: Code, j: nat): int
    requires j < |code| && code[j].Jmp?
  {
    if code[j].sbx == NO_JUMP then NO_JUMP else j + 1 + code[j].sbx
  }

  /** What fixjump stores. */
  function Offset(j: nat, dest: int): Instr { Jmp(dest - (j + 1)) }

  /** The list that starts at `head` is `js`. */
  ghost predicate Chain(code: Code, head: int, js: seq<nat>)
    decreases |js|
  {
    if js == [] then head == NO_JUMP
    else
      && head == js[0] && js[0] < |code| && code[js[0]].Jmp?
      && Chain(code, Next(code, js[0]), js[1..])
  }

  /** A list holds each of its jumps once, so it ends. */
  lemma {:induction false} ChainUnique(code: Code, head: int, js: seq<nat>, ks: seq<nat>)
    requires Chain(code, head, js) && Chain(code, head, ks)
    ensures js == ks
    decreases |js|
  {
    if js != [] && ks != [] {
      ChainUnique(code, Next(code, js[0]), js[1..], ks[1..]);
      assert js == [js[0]] + js[1..];
      assert ks == [ks[0]] + ks[1..];
    }
  }

  lemma {:induction false} ChainFrom(code: Code, head: int, js: seq<nat>, i: nat)
    requires Chain(code, head, js) && i < |js|
    ensures js[i] < |code| && code[js[i]].Jmp? && Chain(code, js[i], js[i..])
    decreases i
  {
    if i > 0 {
      ChainFrom(code, Next(code, js[0]), js[1..], i - 1);
      assert js[1..][i - 1..] == js[i..];
    } else {
      assert js[0..] == js;
    }
  }

  lemma ChainJumps(code: Code, head: int, js: seq<nat>)
    requires Chain(code, head, js)
    ensures forall j :: j in js ==> j < |code| && code[j].Jmp?
  {
    forall j | j in js
      ensures j < |code| && code[j].Jmp?
    {
      var i :| 0 <= i < |js| && js[i] == j;
      ChainFrom(code, head, js, i);
    }
  }

  lemma ChainDistinct(code: Code, head: int, js: seq<nat>, i: nat, k: nat)
    requires Chain(code, head, js) && i < k < |js|
    ensures js[i] != js[k]
  {
    ChainFrom(code, head, js, i);
    ChainFrom(code, head, js, k);
    if js[i] == js[k] {
      ChainUnique(code, js[i], js[i..], js[k..]);
      assert false;
    }
  }

  /** A list is what its own jumps say. */
  lemma {:induction false} ChainSame(code: Code, now: Code, head: int, js: seq<nat>)
    requires Chain(code, head, js)
    requires forall j :: j in js ==> j < |code| && j < |now| && now[j] == code[j]
    ensures Chain(now, head, js)
    decreases |js|
  {
    if js != [] {
      assert js[0] in js;
      assert forall j :: j in js[1..] ==> j in js;
      ChainSame(code, now, Next(code, js[0]), js[1..]);
    }
  }

  /** luaK_concat: the last jump of the first list links to the second. */
  lemma {:induction false} ChainConcat(code: Code, h1: int, js: seq<nat>, h2: int, ks: seq<nat>)
    requires Chain(code, h1, js) && Chain(code, h2, ks) && js != [] && ks != []
    requires forall j :: j in js ==> j !in ks
    ensures js[|js| - 1] < |code|
    ensures Chain(code[js[|js| - 1] := Offset(js[|js| - 1], h2)], h1, js + ks)
    decreases |js|
  {
    ChainFrom(code, h1, js, |js| - 1);
    var last := js[|js| - 1];
    var now := code[last := Offset(last, h2)];
    assert last in js;
    if |js| == 1 {
      assert h2 == ks[0] && ks[0] in ks;
      ChainJumps(code, h2, ks);
      ChainSame(code, now, h2, ks);
      assert (js + ks)[1..] == ks;
    } else {
      assert forall j :: j in js[1..] ==> j in js;
      ChainConcat(code, Next(code, js[0]), js[1..], h2, ks);
      ChainDistinct(code, h1, js, 0, |js| - 1);
      assert js[1..][|js| - 2] == last;
      assert (js + ks)[1..] == js[1..] + ks;
    }
  }

  /** The code at `k` stands for the program there. A jump that is `weak` has a
      destination in the program only: in the code it is still in a list, and
      its test may still copy. */
  predicate Agrees(code: Code, prog: Program, weak: set<nat>, k: nat)
    requires k < |code| && k < |prog|
  {
    match prog[k]
    case Go(Open) => code[k].Jmp?
    case Go(To(d)) => code[k].Jmp? && (k !in weak ==> code[k] == Offset(k, d))
    case Do(i) =>
      && !i.Jmp? && !code[k].Jmp?
      && if k + 1 in weak then !i.TestSet? && Do(i) == Plain(Do(code[k])) else code[k] == i
  }

  ghost predicate Refines(code: Code, prog: Program, weak: set<nat>) {
    && |code| == |prog|
    && (forall k :: 0 <= k < |code| ==> Agrees(code, prog, weak, k))
    && (forall j :: j in weak ==> j < |prog| && prog[j].Go? && prog[j].d.To?)
  }

  /** Jumps of the list are sent to `v` if their test copies, else to `d`. */
  function Patched(code: Code, js: set<nat>, v: int, r: Reg, d: int): (q: Code)
    ensures |q| == |code|
  {
    seq(|code|, k requires 0 <= k < |code| =>
      if k in js then Offset(k, if CopiesAt(code, k) then v else d)
      else if k + 1 in js then Retargeted(code[k], r)
      else code[k])
  }

  predicate CopiesAt(code: Code, j: nat) { 1 <= j < |code| && code[j - 1].TestSet? }

  /** patchtestreg on the test itself. */
  function Retargeted(i: Instr, r: Reg): Instr {
    if i.TestSet? then
      if r != NO_REG && r != i.b then TestSet(r, i.b, i.cond) else Test(i.b, i.cond)
    else i
  }

  /** removevalues */
  function Cleared(code: Code, js: set<nat>): (q: Code)
    ensures |q| == |code|
  {
    seq(|code|, k requires 0 <= k < |code| => if k + 1 in js then Retargeted(code[k], NO_REG) else code[k])
  }

  lemma PatchedNone(code: Code, v: int, r: Reg, d: int)
    ensures Patched(code, {}, v, r, d) == code
  {
  }

  /** One more jump of the list. */
  lemma PatchedStep(code: Code, js: set<nat>, j: nat, v: int, r: Reg, d: int)
    requires j < |code| && j !in js && code[j].Jmp?
    requires forall k :: k in js ==> k < |code| && code[k].Jmp?
    ensures var was := Patched(code, js, v, r, d);
            var at := if j >= 1 then was[j - 1 := Retargeted(was[j - 1], r)] else was;
            CopiesAt(was, j) == CopiesAt(code, j)
            && at[j := Offset(j, if CopiesAt(was, j) then v else d)] == Patched(code, js + {j}, v, r, d)
  {
    hide Patched, Retargeted;
    var was, goal := Patched(code, js, v, r, d), Patched(code, js + {j}, v, r, d);
    PatchedBefore(code, js, v, r, d, j);
    PatchedJump(code, js + {j}, v, r, d, j);
    var at := if j >= 1 then was[j - 1 := Retargeted(was[j - 1], r)] else was;
    var now := at[j := Offset(j, if CopiesAt(was, j) then v else d)];
    forall k | 0 <= k < |code|
      ensures now[k] == goal[k]
    {
      if k != j && k + 1 != j { PatchedElsewhere(code, js, v, r, d, j, k); }
    }
  }

  lemma PatchedBefore(code: Code, js: set<nat>, v: int, r: Reg, d: int, j: nat)
    requires 0 <= j < |code| && j !in js && forall k :: k in js ==> k < |code| && code[k].Jmp?
    ensures j > 0 ==> Retargeted(Patched(code, js, v, r, d)[j - 1], r) == Patched(code, js + {j}, v, r, d)[j - 1]
    ensures CopiesAt(Patched(code, js, v, r, d), j) == CopiesAt(code, j)
  {
    if j > 0 && j - 1 in js {
      PatchedJump(code, js, v, r, d, j - 1);
      PatchedJump(code, js + {j}, v, r, d, j - 1);
    } else if j > 0 {
      PatchedKeeps(code, js, v, r, d, j - 1);
      PatchedTest(code, js + {j}, v, r, d, j - 1);
    }
  }

  lemma PatchedElsewhere(code: Code, js: set<nat>, v: int, r: Reg, d: int, j: nat, k: nat)
    requires k < |code| && k != j && k + 1 != j
    ensures Patched(code, js, v, r, d)[k] == Patched(code, js + {j}, v, r, d)[k]
  {
    if k in js {
      PatchedJump(code, js, v, r, d, k);
      PatchedJump(code, js + {j}, v, r, d, k);
    } else if k + 1 in js {
      PatchedTest(code, js, v, r, d, k);
      PatchedTest(code, js + {j}, v, r, d, k);
    } else {
      PatchedKeeps(code, js, v, r, d, k);
      PatchedKeeps(code, js + {j}, v, r, d, k);
    }
  }

  lemma ClearedNone(code: Code)
    ensures Cleared(code, {}) == code
  {
  }

  lemma ClearedStep(code: Code, js: set<nat>, j: nat)
    requires j < |code|
    ensures var was := Cleared(code, js);
            (if j >= 1 then was[j - 1 := Retargeted(was[j - 1], NO_REG)] else was) == Cleared(code, js + {j})
  {
  }

  function Set(js: seq<nat>): set<nat> { set j | j in js }

  /** Emitting an instruction settles the pending jumps in the code; the program
      had them settled already. */
  lemma RefinesDischarged(code: Code, prog: Program, weak: set<nat>, js: set<nat>)
    requires Refines(code, prog, weak) && js <= weak
    requires forall j :: j in js ==> j < |prog| && prog[j] == Go(To(|prog|))
    ensures Refines(Patched(code, js, |code|, NO_REG, |code|), prog, weak - js)
  {
    var q := Patched(code, js, |code|, NO_REG, |code|);
    forall k | 0 <= k < |q|
      ensures Agrees(q, prog, weak - js, k)
    {
      assert Agrees(code, prog, weak, k);
      assert k + 1 in js ==> k + 1 < |prog| && prog[k + 1].Go?;
    }
  }

  lemma RefinesEmit(code: Code, prog: Program, weak: set<nat>, i: Instr)
    requires Refines(code, prog, weak) && !i.Jmp? && |prog| + 1 !in weak
    ensures Refines(code + [i], prog + [Do(i)], weak)
  {
    forall k | 0 <= k < |code + [i]|
      ensures Agrees(code + [i], prog + [Do(i)], weak, k)
    {
      if k < |code| { assert Agrees(code, prog, weak, k); }
    }
  }

  lemma RefinesJump(code: Code, prog: Program, weak: set<nat>)
    requires Refines(code, prog, weak)
    ensures Refines(code + [Jmp(NO_JUMP)], prog + [Go(Open)], weak)
  {
    var c, p := code + [Jmp(NO_JUMP)], prog + [Go(Open)];
    forall k | 0 <= k < |c|
      ensures Agrees(c, p, weak, k)
    {
      if k < |code| { assert Agrees(code, prog, weak, k); }
    }
  }

  /** Linking lists together changes nothing but jumps that are in lists. */
  lemma RefinesLinked(code: Code, prog: Program, weak: set<nat>, j: nat, sbx: int)
    requires Refines(code, prog, weak) && j < |prog| && (prog[j] == Go(Open) || j in weak)
    ensures Refines(code[j := Jmp(sbx)], prog, weak)
  {
    var c := code[j := Jmp(sbx)];
    assert Agrees(code, prog, weak, j);
    forall k | 0 <= k < |c|
      ensures Agrees(c, prog, weak, k)
    {
      assert Agrees(code, prog, weak, k);
    }
  }

  /** Open or weak jumps become pending. */
  lemma RefinesClosed(code: Code, prog: Program, weak: set<nat>, js: set<nat>)
    requires Refines(code, prog, weak)
    requires forall j :: j in js ==> j < |prog| && (prog[j] == Go(Open) || j in weak)
    ensures Refines(code, Closed(prog, js, |prog|), weak + js)
  {
    var q := Closed(prog, js, |prog|);
    forall k | 0 <= k < |code|
      ensures Agrees(code, q, weak + js, k)
    {
      assert Agrees(code, prog, weak, k);
    }
  }

  lemma RefinesCleared(code: Code, prog: Program, weak: set<nat>, js: set<nat>)
    requires Refines(code, prog, weak)
    requires forall j :: j in js ==> j < |prog| && prog[j] == Go(Open)
    ensures Refines(Cleared(code, js), Retest(prog, js), weak)
  {
    var c, q := Cleared(code, js), Retest(prog, js);
    forall k | 0 <= k < |c|
      ensures Agrees(c, q, weak, k)
    {
      assert Agrees(code, prog, weak, k);
    }
  }

  /** Replacing an instruction that is not a jump and whose jump is not weak. */
  lemma RefinesReplaced(code: Code, prog: Program, weak: set<nat>, at: nat, i: Instr)
    requires Refines(code, prog, weak) && at < |prog| && prog[at].Do? && !i.Jmp? && at + 1 !in weak
    ensures Refines(code[at := i], prog[at := Do(i)], weak)
  {
    var c, q := code[at := i], prog[at := Do(i)];
    forall k | 0 <= k < |c|
      ensures Agrees(c, q, weak, k)
    {
      assert Agrees(code, prog, weak, k);
    }
  }

  lemma RefinesDropped(code: Code, prog: Program, n: nat)
    requires Refines(code, prog, {}) && n <= |prog|
    ensures Refines(code[..n], prog[..n], {})
  {
    forall k | 0 <= k < n
      ensures Agrees(code[..n], prog[..n], {}, k)
    {
      assert Agrees(code, prog, {}, k);
    }
  }

  /** A jump outside the list is left alone. */
  lemma PatchedKeeps(code: Code, js: set<nat>, v: int, r: Reg, d: int, k: nat)
    requires k < |code| && k !in js && (code[k].Jmp? || k + 1 !in js)
    ensures Patched(code, js, v, r, d)[k] == code[k]
  {
  }

  lemma PatchedJump(code: Code, js: set<nat>, v: int, r: Reg, d: int, k: nat)
    requires k < |code| && k in js
    ensures Patched(code, js, v, r, d)[k] == Offset(k, if CopiesAt(code, k) then v else d)
  {
  }

  lemma PatchedTest(code: Code, js: set<nat>, v: int, r: Reg, d: int, k: nat)
    requires k < |code| && k !in js && k + 1 in js
    ensures Patched(code, js, v, r, d)[k] == Retargeted(code[k], r)
  {
  }

  lemma AgreesCopies(code: Code, prog: Program, weak: set<nat>, j: nat)
    requires Refines(code, prog, weak) && IsOpen(prog, j)
    ensures CopiesAt(code, j) == Copies(prog, j) && j !in weak && code[j].Jmp?
    ensures j > 0 ==> Agrees(code, prog, weak, j - 1)
  {
    assert Agrees(code, prog, weak, j);
    if j > 0 { assert Agrees(code, prog, weak, j - 1); }
  }

  /** Patching the false list and then the true list, as exp2reg does. */
  lemma RefinesSent(code: Code, prog: Program, weak: set<nat>, ts: set<nat>, fs: set<nat>, r: Reg, pf: nat, pt: nat)
    requires Refines(code, prog, weak) && OpenIn(prog, ts) && OpenIn(prog, fs) && ts !! fs && r != NO_REG
    ensures Refines(Patched(Patched(code, fs, |code|, r, pf), ts, |code|, r, pt), Sent(prog, ts, fs, r, pf, pt), weak)
  {
    hide Patched, Sent, OpenIn, Agrees;
    var c := Patched(Patched(code, fs, |code|, r, pf), ts, |code|, r, pt);
    var q := Sent(prog, ts, fs, r, pf, pt);
    forall k | 0 <= k < |c|
      ensures Agrees(c, q, weak, k)
    {
      if k in ts || k in fs {
        SentJumpAgrees(code, prog, weak, ts, fs, r, pf, pt, k);
      } else {
        SentOtherAgrees(code, prog, weak, ts, fs, r, pf, pt, k);
      }
    }
    forall j | j in weak
      ensures j < |q| && q[j].Go? && q[j].d.To?
    {
      SentKeeps(prog, ts, fs, r, pf, pt, j);
    }
  }

  lemma SentKeeps(prog: Program, ts: set<nat>, fs: set<nat>, r: Reg, pf: nat, pt: nat, j: nat)
    requires OpenIn(prog, ts) && OpenIn(prog, fs) && j < |prog| && prog[j].Go? && prog[j].d.To?
    ensures Sent(prog, ts, fs, r, pf, pt)[j] == prog[j]
  {
    assert !IsOpen(prog, j);
  }

  lemma SentJumpAgrees(code: Code, prog: Program, weak: set<nat>, ts: set<nat>, fs: set<nat>, r: Reg,
                       pf: nat, pt: nat, k: nat)
    requires Refines(code, prog, weak) && OpenIn(prog, ts) && OpenIn(prog, fs) && ts !! fs && r != NO_REG
    requires k < |code| && (k in ts || k in fs)
    ensures Agrees(Patched(Patched(code, fs, |code|, r, pf), ts, |code|, r, pt), Sent(prog, ts, fs, r, pf, pt), weak, k)
  {
    hide Patched;
    assert IsOpen(prog, k);
    AgreesCopies(code, prog, weak, k);
    var c1 := Patched(code, fs, |code|, r, pf);
    if k in ts {
      PatchedJump(c1, ts, |code|, r, pt, k);
      if k > 0 {
        if k - 1 in fs {
          assert IsOpen(prog, k - 1);
          PatchedJump(code, fs, |code|, r, pf, k - 1);
        } else {
          PatchedKeeps(code, fs, |code|, r, pf, k - 1);
        }
      }
    } else {
      PatchedJump(code, fs, |code|, r, pf, k);
      PatchedKeeps(c1, ts, |code|, r, pt, k);
    }
  }

  lemma SentOtherAgrees(code: Code, prog: Program, weak: set<nat>, ts: set<nat>, fs: set<nat>, r: Reg,
                        pf: nat, pt: nat, k: nat)
    requires Refines(code, prog, weak) && OpenIn(prog, ts) && OpenIn(prog, fs) && ts !! fs && r != NO_REG
    requires k < |code| && k !in ts && k !in fs
    ensures Agrees(Patched(Patched(code, fs, |code|, r, pf), ts, |code|, r, pt), Sent(prog, ts, fs, r, pf, pt), weak, k)
  {
    hide Patched;
    assert Agrees(code, prog, weak, k);
    var c1 := Patched(code, fs, |code|, r, pf);
    if k + 1 in fs {
      assert IsOpen(prog, k + 1);
      PatchedTest(code, fs, |code|, r, pf, k);
      PatchedKeeps(c1, ts, |code|, r, pt, k);
    } else if k + 1 in ts {
      assert IsOpen(prog, k + 1);
      PatchedKeeps(code, fs, |code|, r, pf, k);
      PatchedTest(c1, ts, |code|, r, pt, k);
    } else {
      PatchedKeeps(code, fs, |code|, r, pf, k);
      PatchedKeeps(c1, ts, |code|, r, pt, k);
    }
  }
}
