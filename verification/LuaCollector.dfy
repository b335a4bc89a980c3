/** The incremental collector of Lua 5.1.4. */
module LuaCollector {
  import opened LuaHeap

  const GCSWEEPMAX: nat := 40
  const MINSTRTABSIZE: nat := 32

  class Collector {
    var body: Heap
    var marked: Marks
    var fixed: set<Id>
    var openupval: map<Id, seq<Id>>
    var uvhead: seq<Id>
    var rootgc: seq<Id>
    var sweepgc: nat
    var strt: seq<seq<Id>>
    var sweepstrgc: nat
    var gray: seq<Id>
    var grayagain: seq<Id>
    var currentwhite: Colour
    var gcstate: Phase
    var mainthread: Id
    var registry: Id
    var running: Id
    var mt: seq<Id>

    /** `lua_newstate` with `f_luaopen`: the main thread, its table of globals
        and the registry, over an empty string table. */
    constructor ()
      ensures Inv() && gcstate == Pause && running == mainthread
    {
      mainthread, running, registry := 0, 0, 2;
      mt := [];
      body := map[0 := Thread([], 1), 1 := Tab([]), 2 := Tab([])];
      marked := map[0 := White0, 1 := White0, 2 := White0];
      fixed := {0};
      openupval := map[0 := []];
      uvhead := [];
      rootgc := [2, 1, 0];
      sweepgc := 0;
      strt := seq(MINSTRTABSIZE, _ => []);
      sweepstrgc := 0;
      gray := [];
      grayagain := [];
      currentwhite := White0;
      gcstate := Pause;
      new;
      InitialHeap(body, marked, strt);
    }

    // ----- Marking -----

    ghost predicate MarkInv(pending: set<Id>, live: set<Id>, dirty: set<Id>)
      reads this
    {
      Marking(body, marked, currentwhite, gray, grayagain, pending, live, dirty)
    }

    ghost function Work(): int
      reads this
    {
      2 * |Whites(marked)| + |gray|
    }

    function ReadSlot(t: Id, level: nat): (v: Value)
      reads this
      ensures v == Slot(body, t, level)
    {
      if t in body && body[t].Thread? && level < |body[t].stack| then body[t].stack[level] else Scalar
    }

    /** `reallymarkobject`: the colour and list effects of meeting a white object. */
    method ReallyMarkObject(o: Id, ghost pending: set<Id>, ghost live: set<Id>, ghost dirty: set<Id>)
      requires MarkInv(pending, live, dirty)
      requires o in live && White(marked[o])
      modifies `marked, `gray
      ensures MarkInv(pending, live, dirty)
      ensures !White(marked[o]) && Grew(old(marked), marked)
      ensures Work() < old(Work())
      decreases Whites(marked), 1
    {
      hide Marking;
      MarkingFacts(body, marked, currentwhite, gray, grayagain, pending, live, dirty);
      if body[o].Udata? {
        MarkUdata(o, pending, live, dirty);
      } else if body[o].OpenUpval? {
        MarkOpenUpval(o, pending, live, dirty);
      } else if body[o].ClosedUpval? {
        MarkClosedUpval(o, pending, live, dirty);
      } else {
        StartMark(body, marked, currentwhite, gray, grayagain, pending, live, dirty, o, Gray);
        marked := marked[o := Gray];
        if Listed(body[o]) {
          EndListed(body, marked, currentwhite, gray, grayagain, pending, live, dirty, o);
          gray := [o] + gray;
        } else {
          EndUnlisted(body, marked, currentwhite, gray, grayagain, pending, live, dirty, o);
        }
      }
    }

    method MarkUdata(o: Id, ghost pending: set<Id>, ghost live: set<Id>, ghost dirty: set<Id>)
      requires MarkInv(pending, live, dirty)
      requires o in live && White(marked[o]) && body[o].Udata?
      modifies `marked, `gray
      ensures MarkInv(pending, live, dirty)
      ensures !White(marked[o]) && Grew(old(marked), marked)
      ensures Work() < old(Work())
      decreases Whites(marked), 0
    {
      hide Marking;
      MarkingFacts(body, marked, currentwhite, gray, grayagain, pending, live, dirty);
      StartMark(body, marked, currentwhite, gray, grayagain, pending, live, dirty, o, Black);
      marked := marked[o := Black];
      MarkAll(body[o].refs, pending + {o}, live, dirty);
      GrewAfter(old(marked), marked, o, Black);
      NotListed(body, marked, currentwhite, gray, grayagain, pending + {o}, live, dirty, o);
      EndBlack(body, marked, currentwhite, gray, grayagain, pending, live, dirty, o);
      assert marked[o := Black] == marked;
    }

    method MarkOpenUpval(o: Id, ghost pending: set<Id>, ghost live: set<Id>, ghost dirty: set<Id>)
      requires MarkInv(pending, live, dirty)
      requires o in live && White(marked[o]) && body[o].OpenUpval?
      modifies `marked, `gray
      ensures MarkInv(pending, live, dirty)
      ensures !White(marked[o]) && Grew(old(marked), marked)
      ensures Work() < old(Work())
      decreases Whites(marked), 0
    {
      hide Marking;
      MarkingFacts(body, marked, currentwhite, gray, grayagain, pending, live, dirty);
      StartMark(body, marked, currentwhite, gray, grayagain, pending, live, dirty, o, Gray);
      marked := marked[o := Gray];
      MarkValue(ReadSlot(body[o].thread, body[o].level), pending + {o}, live, dirty);
      GrewAfter(old(marked), marked, o, Gray);
      EndUnlisted(body, marked, currentwhite, gray, grayagain, pending, live, dirty, o);
    }

    method MarkClosedUpval(o: Id, ghost pending: set<Id>, ghost live: set<Id>, ghost dirty: set<Id>)
      requires MarkInv(pending, live, dirty)
      requires o in live && White(marked[o]) && body[o].ClosedUpval?
      modifies `marked, `gray
      ensures MarkInv(pending, live, dirty)
      ensures !White(marked[o]) && Grew(old(marked), marked)
      ensures Work() < old(Work())
      decreases Whites(marked), 0
    {
      hide Marking;
      MarkingFacts(body, marked, currentwhite, gray, grayagain, pending, live, dirty);
      StartMark(body, marked, currentwhite, gray, grayagain, pending, live, dirty, o, Gray);
      marked := marked[o := Gray];
      MarkValue(body[o].value, pending + {o}, live, dirty);
      GrewAfter(old(marked), marked, o, Gray);
      NotListed(body, marked, currentwhite, gray, grayagain, pending + {o}, live, dirty, o);
      EndBlack(body, marked, currentwhite, gray, grayagain, pending, live, dirty, o);
      marked := marked[o := Black];
    }

    method MarkObject(o: Id, ghost pending: set<Id>, ghost live: set<Id>, ghost dirty: set<Id>)
      requires MarkInv(pending, live, dirty)
      requires o in live
      modifies `marked, `gray
      ensures MarkInv(pending, live, dirty)
      ensures o in marked && !White(marked[o]) && AllMarked(marked, {o}) && Grew(old(marked), marked)
      ensures Work() <= old(Work())
      decreases Whites(marked), 2
    {
      hide Marking;
      MarkingFacts(body, marked, currentwhite, gray, grayagain, pending, live, dirty);
      if White(marked[o]) {
        ReallyMarkObject(o, pending, live, dirty);
      } else {
        GrewNothing(marked);
      }
      MarkedOne(marked, o);
    }

    method MarkValue(v: Value, ghost pending: set<Id>, ghost live: set<Id>, ghost dirty: set<Id>)
      requires MarkInv(pending, live, dirty)
      requires ValueIds(v) <= live
      modifies `marked, `gray
      ensures MarkInv(pending, live, dirty)
      ensures Grew(old(marked), marked)
      ensures AllMarked(marked, ValueIds(v))
      ensures Work() <= old(Work())
      decreases Whites(marked), 3
    {
      hide Marking;
      MarkingFacts(body, marked, currentwhite, gray, grayagain, pending, live, dirty);
      if v.Ref? {
        MarkObject(v.id, pending, live, dirty);
      }
    }

    method MarkAll(refs: seq<Id>, ghost pending: set<Id>, ghost live: set<Id>, ghost dirty: set<Id>)
      requires MarkInv(pending, live, dirty)
      requires Ids(refs) <= live
      modifies `marked, `gray
      ensures MarkInv(pending, live, dirty)
      ensures Grew(old(marked), marked)
      ensures AllMarked(marked, Ids(refs))
      ensures Work() <= old(Work())
      decreases Whites(marked), 3
    {
      for i := 0 to |refs|
        invariant MarkInv(pending, live, dirty)
        invariant Grew(old(marked), marked) && Whites(marked) <= Whites(old(marked))
        invariant AllMarked(marked, Ids(refs[..i]))
        invariant Work() <= old(Work())
      {
        hide Marking, Grew, AllMarked, Whites;
        ghost var before := marked;
        assert refs[i] in Ids(refs);
        MarkObject(refs[i], pending, live, dirty);
        GrewThen(old(marked), before, marked, Ids(refs[..i]));
        MarkedOneMore(marked, refs, i);
      }
      assert refs[..|refs|] == refs;
    }

    method MarkStack(stack: seq<Value>, ghost pending: set<Id>, ghost live: set<Id>, ghost dirty: set<Id>)
      requires MarkInv(pending, live, dirty)
      requires StackIds(stack) <= live
      modifies `marked, `gray
      ensures MarkInv(pending, live, dirty)
      ensures Grew(old(marked), marked)
      ensures AllMarked(marked, StackIds(stack))
      ensures Work() <= old(Work())
    {
      for i := 0 to |stack|
        invariant MarkInv(pending, live, dirty)
        invariant Grew(old(marked), marked)
        invariant AllMarked(marked, StackIds(stack[..i]))
        invariant Work() <= old(Work())
      {
        hide Marking, Grew, AllMarked, Whites;
        assert ValueIds(stack[i]) <= live by {
          if stack[i].Ref? { assert stack[i].id in StackIds(stack); }
        }
        ghost var before := marked;
        MarkValue(stack[i], pending, live, dirty);
        GrewThen(old(marked), before, marked, StackIds(stack[..i]));
        StackOneMore(marked, stack, i);
      }
      assert stack[..|stack|] == stack;
    }

    method TraverseStack(o: Id, ghost live: set<Id>, ghost dirty: set<Id>)
      requires MarkInv({o}, live, dirty)
      requires o in live && body[o].Thread?
      modifies `marked, `gray
      ensures MarkInv({o}, live, dirty)
      ensures Grew(old(marked), marked)
      ensures AllMarked(marked, Refs(body, o))
      ensures Work() <= old(Work())
    {
      hide Marking, Whites, Refs;
      MarkingFacts(body, marked, currentwhite, gray, grayagain, {o}, live, dirty);
      var stack, gt := body[o].stack, body[o].gt;
      RefsOf(body, o);
      MarkObject(gt, {o}, live, dirty);
      ghost var before := marked;
      MarkStack(stack, {o}, live, dirty);
      GrewThen(old(marked), before, marked, {gt});
    }

    method PropagateThread(ghost live: set<Id>, ghost dirty: set<Id>)
      requires MarkInv({}, live, dirty) && gray != [] && body[gray[0]].Thread?
      modifies `marked, `gray, `grayagain
      ensures MarkInv({}, live, dirty)
      ensures old(OnlyThreads(body, grayagain)) ==> OnlyThreads(body, grayagain)
      ensures Kept(old(marked), marked)
      ensures Work() < old(Work())
    {
      hide Marking, Refs;
      MarkingFacts(body, marked, currentwhite, gray, grayagain, {}, live, dirty);
      GrayHead(body, marked, currentwhite, gray, grayagain, live, dirty);
      var o := gray[0];
      PopThread(body, marked, currentwhite, gray, grayagain, live, dirty);
      gray := gray[1..];
      grayagain := [o] + grayagain;
      assert marked[o := Gray] == marked;
      TraverseStack(o, live, dirty);
      EndThread(body, marked, currentwhite, gray, grayagain, live, dirty, o);
      KeptGrew(old(marked), o, Gray, marked);
    }

    method PropagateListed(ghost live: set<Id>, ghost dirty: set<Id>)
      requires MarkInv({}, live, dirty) && gray != [] && !body[gray[0]].Thread?
      modifies `marked, `gray
      ensures MarkInv({}, live, dirty)
      ensures Kept(old(marked), marked)
      ensures Work() < old(Work())
    {
      hide Marking, Refs, Grew, Kept, Whites, AllMarked;
      MarkingFacts(body, marked, currentwhite, gray, grayagain, {}, live, dirty);
      GrayHead(body, marked, currentwhite, gray, grayagain, live, dirty);
      var o := gray[0];
      var refs := body[o].refs;
      RefsOf(body, o);
      PopBlack(body, marked, currentwhite, gray, grayagain, live, dirty);
      gray := gray[1..];
      marked := marked[o := Black];
      MarkAll(refs, {o}, live, dirty);
      KeptGrew(old(marked), o, Black, marked);
      assert {} + {o} == {o};
      NotListed(body, marked, currentwhite, gray, grayagain, {o}, live, dirty, o);
      EndBlack(body, marked, currentwhite, gray, grayagain, {}, live, dirty, o);
      assert marked[o := Black] == marked;
    }

    /** `propagatemark`: traverses the first gray object. */
    method PropagateMark(ghost live: set<Id>, ghost dirty: set<Id>)
      requires MarkInv({}, live, dirty) && gray != []
      modifies `marked, `gray, `grayagain
      ensures MarkInv({}, live, dirty)
      ensures old(OnlyThreads(body, grayagain)) ==> OnlyThreads(body, grayagain)
      ensures Kept(old(marked), marked)
      ensures Work() < old(Work())
    {
      if body[gray[0]].Thread? {
        PropagateThread(live, dirty);
      } else {
        PropagateListed(live, dirty);
      }
    }

    method PropagateAll(ghost live: set<Id>, ghost dirty: set<Id>)
      requires MarkInv({}, live, dirty)
      modifies `marked, `gray, `grayagain
      ensures MarkInv({}, live, dirty) && gray == []
      ensures old(OnlyThreads(body, grayagain)) ==> OnlyThreads(body, grayagain)
      ensures Kept(old(marked), marked)
    {
      while gray != []
        invariant MarkInv({}, live, dirty)
        invariant old(OnlyThreads(body, grayagain)) ==> OnlyThreads(body, grayagain)
        invariant Kept(old(marked), marked)
        decreases Work()
      {
        PropagateMark(live, dirty);
      }
    }

    // ----- Sweeping -----

    ghost predicate Shape(except: set<Id>)
      reads this
    {
      && body.Keys == marked.Keys && White(currentwhite) && sweepgc <= |rootgc|
      && Owned(body, rootgc, strt, openupval, uvhead, except)
    }

    ghost predicate SweptPrefix()
      reads this
    {
      Prefix(marked, openupval, rootgc, sweepgc, currentwhite)
    }

    ghost function SweepWork(): int
      reads this
    {
      |rootgc| - sweepgc + |uvhead|
    }

    /** One turn of `sweeplist` over bucket `b` of the string table. */
    method SweepInBucket(b: nat, i: nat) returns (next: nat)
      requires Shape({}) && b < |strt| && i < |strt[b]| && Whitened(marked, strt[b], i, currentwhite)
      modifies `body, `marked, `strt
      ensures Shape({})
      ensures Swept(old(body), old(marked), body, marked, currentwhite, fixed)
      ensures |strt| == |old(strt)| && strt == old(strt)[b := strt[b]]
      ensures next <= |strt[b]| && Whitened(marked, strt[b], next, currentwhite)
      ensures |strt[b]| - next < |old(strt[b])| - i
    {
      hide Owned, Swept, Whitened;
      OwnedString(body, rootgc, strt, openupval, uvhead, {}, b, i);
      var curr := strt[b][i];
      if marked[curr] != OtherWhite(currentwhite) || curr in fixed {
        SweptWhiten(body, marked, curr, currentwhite, fixed);
        WhitenedOneMore(marked, strt[b], i, currentwhite);
        marked := marked[curr := currentwhite];
        next := i + 1;
      } else {
        FreeString(body, marked, rootgc, strt, openupval, uvhead, b, i, currentwhite, fixed);
        strt := strt[b := Cut(strt[b], i)];
        body := body - {curr};
        marked := marked - {curr};
        next := i;
      }
    }

    /** `sweepwholelist` on bucket `b` of the string table. */
    method SweepBucket(b: nat)
      requires Shape({}) && b < |strt|
      modifies `body, `marked, `strt
      ensures Shape({})
      ensures Swept(old(body), old(marked), body, marked, currentwhite, fixed)
      ensures |strt| == |old(strt)| && strt == old(strt)[b := strt[b]]
      ensures Whitened(marked, strt[b], |strt[b]|, currentwhite)
    {
      hide Owned, Whitened;
      SweptNothing(body, marked, currentwhite, fixed);
      var i: nat := 0;
      WhitenedNone(marked, strt[b], currentwhite);
      while i < |strt[b]|
        invariant Shape({})
        invariant Swept(old(body), old(marked), body, marked, currentwhite, fixed)
        invariant |strt| == |old(strt)| && strt == old(strt)[b := strt[b]]
        invariant i <= |strt[b]| && Whitened(marked, strt[b], i, currentwhite)
        decreases |strt[b]| - i
      {
        hide Swept;
        ghost var h, m := body, marked;
        i := SweepInBucket(b, i);
        SweptThen(old(body), old(marked), h, m, body, marked, currentwhite, fixed);
      }
    }

    /** One turn of `sweeplist` over the open upvalues of thread `t`. */
    method SweepUpval(t: Id, i: nat, ghost except: set<Id>) returns (next: nat)
      requires Shape(except) && t in openupval && i < |openupval[t]|
      requires Whitened(marked, openupval[t], i, currentwhite)
      modifies `body, `marked, `openupval, `uvhead
      ensures Shape(except)
      ensures Swept(old(body), old(marked), body, marked, currentwhite, fixed)
      ensures t in openupval && openupval == old(openupval)[t := openupval[t]]
      ensures next <= |openupval[t]| && Whitened(marked, openupval[t], next, currentwhite)
      ensures |openupval[t]| - next < |old(openupval[t])| - i && |uvhead| <= |old(uvhead)|
    {
      hide Owned, Swept, Whitened;
      OwnedUpval(body, rootgc, strt, openupval, uvhead, except, t, i);
      var curr := openupval[t][i];
      if marked[curr] != OtherWhite(currentwhite) || curr in fixed {
        SweptWhiten(body, marked, curr, currentwhite, fixed);
        WhitenedOneMore(marked, openupval[t], i, currentwhite);
        marked := marked[curr := currentwhite];
        next := i + 1;
      } else {
        FreeOpen(body, marked, rootgc, strt, openupval, uvhead, except, t, i, currentwhite, fixed);
        WithoutShorter(uvhead, curr);
        openupval := openupval[t := Cut(openupval[t], i)];
        uvhead := Without(uvhead, curr);
        body := body - {curr};
        marked := marked - {curr};
        next := i;
      }
    }

    /** `sweepwholelist` on the open upvalues of thread `t`. */
    method SweepOpen(t: Id, ghost except: set<Id>)
      requires Shape(except) && t in openupval
      modifies `body, `marked, `openupval, `uvhead
      ensures Shape(except)
      ensures Swept(old(body), old(marked), body, marked, currentwhite, fixed)
      ensures t in openupval && openupval == old(openupval)[t := openupval[t]]
      ensures Whitened(marked, openupval[t], |openupval[t]|, currentwhite)
      ensures |uvhead| <= |old(uvhead)|
    {
      hide Owned, Whitened;
      SweptNothing(body, marked, currentwhite, fixed);
      var i: nat := 0;
      WhitenedNone(marked, openupval[t], currentwhite);
      while i < |openupval[t]|
        invariant Shape(except) && t in openupval
        invariant Swept(old(body), old(marked), body, marked, currentwhite, fixed)
        invariant openupval == old(openupval)[t := openupval[t]]
        invariant i <= |openupval[t]| && Whitened(marked, openupval[t], i, currentwhite)
        invariant |uvhead| <= |old(uvhead)|
        decreases |openupval[t]| - i
      {
        hide Swept;
        ghost var h, m := body, marked;
        i := SweepUpval(t, i, except);
        SweptThen(old(body), old(marked), h, m, body, marked, currentwhite, fixed);
      }
    }

    // ----- Barriers and upvalues -----

    /** `luaC_barrier`, with `luaC_barrierf`: a black object came to hold `v`. */
    method Barrier(o: Id, v: Value)
      requires o in marked && body.Keys == marked.Keys && White(currentwhite)
      requires marked[o] == Black && gcstate == Propagate ==>
                 MarkInv({o}, body.Keys, body.Keys) && ValueIds(v) <= body.Keys
      modifies `marked, `gray
      ensures marked.Keys == old(marked).Keys
      ensures old(marked)[o] == Black && gcstate == Propagate ==>
                MarkInv({o}, body.Keys, body.Keys) && Grew(old(marked), marked) && AllMarked(marked, ValueIds(v))
      ensures old(marked)[o] != Black || gcstate != Propagate ==> gray == old(gray)
      ensures old(marked)[o] != Black ==> marked == old(marked)
      ensures gcstate != Propagate ==> marked == old(marked) || marked == old(marked)[o := currentwhite]
    {
      if v.Ref? && v.id in marked && White(marked[v.id]) && marked[o] == Black {
        if gcstate == Propagate {
          ReallyMarkObject(v.id, {o}, body.Keys, body.Keys);
        } else {
          marked := marked[o := currentwhite];
        }
      }
    }

    /** `luaC_linkupval` on a gray upvalue while marking: straight to black. */
    method LinkGray(u: Id)
      requires u in marked && body.Keys == marked.Keys && body[u].ClosedUpval? && marked[u] == Gray
      requires gcstate == Propagate
      requires Marking(body, marked[u := Black], currentwhite, gray, grayagain, {u}, body.Keys, body.Keys)
      modifies `marked, `gray
      ensures MarkInv({}, body.Keys, body.Keys) && Kept(old(marked), marked)
    {
      hide Marking, Grew, Kept, AllMarked, Refs;
      MarkingFacts(body, marked[u := Black], currentwhite, gray, grayagain, {u}, body.Keys, body.Keys);
      RefsOf(body, u);
      assert White(currentwhite);
      marked := marked[u := Black];
      Barrier(u, body[u].value);
      KeptGrew(old(marked), u, Black, marked);
      NotListed(body, marked, currentwhite, gray, grayagain, {u}, body.Keys, body.Keys, u);
      assert {} + {u} == {u};
      EndBlack(body, marked, currentwhite, gray, grayagain, {}, body.Keys, body.Keys, u);
      assert marked[u := Black] == marked;
    }

    /** `luaC_linkupval`: a closed upvalue joins the root list. */
    method LinkUpval(u: Id)
      requires u in marked && body.Keys == marked.Keys && White(currentwhite) && body[u].ClosedUpval?
      requires gcstate == Propagate && White(marked[u]) ==> MarkInv({}, body.Keys, body.Keys)
      requires gcstate == Propagate && !White(marked[u]) ==>
                 marked[u] == Gray && Marking(body, marked[u := Black], currentwhite, gray, grayagain, {u}, body.Keys, body.Keys)
      modifies `rootgc, `sweepgc, `marked, `gray
      ensures rootgc == [u] + old(rootgc) && sweepgc == if old(sweepgc) > 0 then old(sweepgc) + 1 else 0
      ensures gcstate == Propagate ==> MarkInv({}, body.Keys, body.Keys) && Kept(old(marked), marked)
      ensures gcstate != Propagate ==> gray == old(gray)
      ensures gcstate != Propagate ==> marked == if old(marked)[u] == Gray then old(marked)[u := currentwhite] else old(marked)
    {
      hide Marking;
      rootgc := [u] + rootgc;
      sweepgc := if sweepgc > 0 then sweepgc + 1 else 0;
      if marked[u] == Gray {
        if gcstate == Propagate {
          LinkGray(u);
        } else {
          marked := marked[u := currentwhite];
        }
      }
    }

    /** One turn of `luaF_close` while marking. */
    method CloseFirstMarking(t: Id)
      requires Shape({}) && t in openupval && openupval[t] != []
      requires gcstate == Propagate && MarkInv({}, body.Keys, body.Keys)
      modifies `body, `marked, `openupval, `uvhead, `rootgc, `sweepgc, `gray
      ensures Shape({}) && openupval == old(openupval)[t := Cut(old(openupval)[t], 0)]
      ensures MarkInv({}, body.Keys, body.Keys) && Kept(old(marked), marked)
      ensures var u := old(openupval)[t][0];
              u in old(body) && body == ClosedOver(old(body), u, Slot(old(body), t, old(body)[u].level))
      ensures |uvhead| < |old(uvhead)|
    {
      hide Owned, Marking, Cut, Without;
      OwnedUpval(body, rootgc, strt, openupval, uvhead, {}, t, 0);
      var u := openupval[t][0];
      WithoutShorter(uvhead, u);
      var v := ReadSlot(t, body[u].level);
      CloseOpen(body, rootgc, strt, openupval, uvhead, {}, t, v);
      CloseMarking(body, marked, currentwhite, gray, grayagain, u, v);
      openupval := openupval[t := Cut(openupval[t], 0)];
      uvhead := Without(uvhead, u);
      body := ClosedOver(body, u, v);
      assert body.Keys == old(body).Keys;
      LinkUpval(u);
    }

    /** `luaF_close`, outside marking, on a dead first upvalue of `t`: freed. */
    method FreeFirst(t: Id, ghost except: set<Id>)
      requires Shape(except) && t in openupval && openupval[t] != []
      requires openupval[t][0] !in fixed && openupval[t][0] in marked && marked[openupval[t][0]] == OtherWhite(currentwhite)
      modifies `body, `marked, `openupval, `uvhead
      ensures Shape(except) && openupval == old(openupval)[t := Cut(old(openupval)[t], 0)]
      ensures Swept(old(body), old(marked), body, marked, currentwhite, fixed)
      ensures body == old(body) - {old(openupval)[t][0]} && marked == old(marked) - {old(openupval)[t][0]}
      ensures |uvhead| < |old(uvhead)|
      ensures old(SweptPrefix()) ==> SweptPrefix()
    {
      hide Owned, Swept, Whitened, Cut, Without, Prefix;
      OwnedUpval(body, rootgc, strt, openupval, uvhead, except, t, 0);
      var u := openupval[t][0];
      var rest := openupval[t := Cut(openupval[t], 0)];
      WithoutShorter(uvhead, u);
      WhitenedNone(marked, openupval[t], currentwhite);
      FreeOpen(body, marked, rootgc, strt, openupval, uvhead, except, t, 0, currentwhite, fixed);
      body := body - {u};
      marked := marked - {u};
      openupval := rest;
      uvhead := Without(uvhead, u);
      if old(SweptPrefix()) {
        PrefixTaken(old(body), old(marked), body, marked, currentwhite, fixed, rootgc, strt, old(openupval), uvhead, except, t, sweepgc);
      }
    }

    /** `luaF_close`, outside marking, on a live one: closed and, if gray, made white. */
    method CloseFirst(t: Id, ghost except: set<Id>)
      requires Shape(except) && t in openupval && openupval[t] != [] && gcstate != Propagate
      requires openupval[t][0] in marked && marked[openupval[t][0]] != OtherWhite(currentwhite) && marked[openupval[t][0]] != Black
      modifies `body, `marked, `openupval, `uvhead, `rootgc, `sweepgc
      ensures Shape(except) && openupval == old(openupval)[t := Cut(old(openupval)[t], 0)]
      ensures rootgc == [old(openupval)[t][0]] + old(rootgc)
      ensures sweepgc == if old(sweepgc) > 0 then old(sweepgc) + 1 else 0
      ensures FromOpen(old(body), old(rootgc), rootgc)
      ensures old(sweepgc) == 0 ==> sweepgc == 0
      ensures Swept(old(body), old(marked), body, marked, currentwhite, fixed)
      ensures var u := old(openupval)[t][0];
              u in old(body) && old(body)[u].OpenUpval? && body == ClosedOver(old(body), u, Slot(old(body), t, old(body)[u].level))
      ensures marked == old(marked)[old(openupval)[t][0] := marked[old(openupval)[t][0]]]
      ensures |uvhead| < |old(uvhead)|
      ensures old(SweptPrefix()) ==> SweptPrefix()
    {
      hide Owned, Swept, Whitened, Cut, Without, ClosedOver, Prefix, Slot;
      OwnedUpval(body, rootgc, strt, openupval, uvhead, except, t, 0);
      var u := openupval[t][0];
      var v := ReadSlot(t, body[u].level);
      var rest := openupval[t := Cut(openupval[t], 0)];
      WithoutShorter(uvhead, u);
      CloseOpen(body, rootgc, strt, openupval, uvhead, except, t, v);
      SweptCloseWhiten(body, marked, u, v, currentwhite, fixed);
      body := ClosedOver(body, u, v);
      rootgc := [u] + rootgc;
      sweepgc := if sweepgc > 0 then sweepgc + 1 else 0;
      if marked[u] == Gray {
        marked := marked[u := currentwhite];
      } else {
        assert marked[u := currentwhite] == marked;
      }
      openupval := rest;
      uvhead := Without(uvhead, u);
      PrefixFirstClosed(old(body), old(marked), body, marked, currentwhite, fixed,
                        old(rootgc), strt, old(openupval), uvhead, except, t, old(sweepgc), v);
    }

    /** One turn of `luaF_close` outside marking. */
    method CloseTurn(t: Id, ghost except: set<Id>)
      requires Shape(except) && t in openupval && openupval[t] != [] && gcstate != Propagate
      requires OpenNotBlack(body, marked) && KindsOk(body, fixed, mainthread) && mainthread in fixed
      modifies `body, `marked, `openupval, `uvhead, `rootgc, `sweepgc
      ensures Shape(except) && openupval == old(openupval)[t := Cut(old(openupval)[t], 0)]
      ensures FromOpen(old(body), old(rootgc), rootgc)
      ensures old(sweepgc) == 0 ==> sweepgc == 0
      ensures Swept(old(body), old(marked), body, marked, currentwhite, fixed)
      ensures old(SweptPrefix()) ==> SweptPrefix()
      ensures OpenNotBlack(body, marked) && KindsOk(body, fixed, mainthread)
      ensures SweepWork() <= old(SweepWork()) && |uvhead| < |old(uvhead)|
      ensures var u := old(openupval)[t][0];
              && u in old(body) && old(body)[u].OpenUpval? && u in old(marked)
              && body == (if old(marked)[u] == OtherWhite(currentwhite) then old(body) - {u}
                          else ClosedOver(old(body), u, Slot(old(body), t, old(body)[u].level)))
              && forall x :: x in old(marked) && x != u ==> x in marked && marked[x] == old(marked)[x]
    {
      hide Owned, Swept, Cut, Prefix, OpenNotBlack, KindsOk;
      OpenFirst(body, rootgc, strt, openupval, uvhead, except, marked, fixed, mainthread, t);
      if marked[openupval[t][0]] == OtherWhite(currentwhite) {
        FreeFirst(t, except);
      } else {
        CloseFirst(t, except);
      }
      SweptKinds(old(body), old(marked), body, marked, currentwhite, fixed, mainthread);
    }

    /** The same, from `h` and `m` on. */
    method CloseNext(t: Id, ghost level: nat, ghost except: set<Id>, ghost h: Heap, ghost m: Marks)
      requires Shape(except) && t in openupval && openupval[t] != [] && gcstate != Propagate
      requires OpenNotBlack(body, marked) && KindsOk(body, fixed, mainthread) && mainthread in fixed
      requires openupval[t][0] in body && body[openupval[t][0]].OpenUpval? && body[openupval[t][0]].level >= level
      requires ClosedDown(h, m, body, t, level, OtherWhite(currentwhite), openupval[t]) && SameMarks(m, marked, openupval[t])
      requires t in h && h[t].Thread?
      modifies `body, `marked, `openupval, `uvhead, `rootgc, `sweepgc
      ensures Shape(except) && openupval == old(openupval)[t := Cut(old(openupval)[t], 0)]
      ensures FromOpen(old(body), old(rootgc), rootgc)
      ensures old(sweepgc) == 0 ==> sweepgc == 0
      ensures Swept(old(body), old(marked), body, marked, currentwhite, fixed)
      ensures old(SweptPrefix()) ==> SweptPrefix()
      ensures OpenNotBlack(body, marked) && KindsOk(body, fixed, mainthread)
      ensures SweepWork() <= old(SweepWork()) && |uvhead| < |old(uvhead)|
      ensures ClosedDown(h, m, body, t, level, OtherWhite(currentwhite), openupval[t]) && SameMarks(m, marked, openupval[t])
    {
      hide Owned, Swept, Cut, Prefix, OpenNotBlack, KindsOk, ClosedDown, OpenList, ClosedOver, Slot;
      OwnedOpen(body, rootgc, strt, openupval, uvhead, except, t);
      CloseTurn(t, except);
      DownStep(h, m, old(body), old(marked), body, t, level, OtherWhite(currentwhite), old(openupval)[t]);
    }

    /** `luaF_close` outside marking: every open upvalue of `t` at `level` or
        above is freed if dead and closed otherwise. */
    method Close(t: Id, level: nat, ghost except: set<Id>)
      requires Shape(except) && t in openupval && gcstate != Propagate
      requires OpenNotBlack(body, marked) && KindsOk(body, fixed, mainthread) && mainthread in fixed
      modifies `body, `marked, `openupval, `uvhead, `rootgc, `sweepgc
      ensures Shape(except) && t in openupval && openupval == old(openupval)[t := openupval[t]]
      ensures FromOpen(old(body), old(rootgc), rootgc)
      ensures old(sweepgc) == 0 ==> sweepgc == 0
      ensures Swept(old(body), old(marked), body, marked, currentwhite, fixed)
      ensures forall u :: u in openupval[t] ==> u in body && body[u].OpenUpval? && body[u].level < level
      ensures ClosedDown(old(body), old(marked), body, t, level, OtherWhite(currentwhite), [])
      ensures old(SweptPrefix()) ==> SweptPrefix()
      ensures SweepWork() <= old(SweepWork())
    {
      hide Owned, Swept, Cut, Prefix, OpenNotBlack, KindsOk, ClosedDown, SameMarks;
      SweptNothing(body, marked, currentwhite, fixed);
      DownStart(body, marked, rootgc, strt, openupval, uvhead, except, t, level, OtherWhite(currentwhite));
      if openupval[t] != [] {
        OwnedUpval(body, rootgc, strt, openupval, uvhead, except, t, 0);
      }
      while openupval[t] != [] && body[openupval[t][0]].level >= level
        invariant Shape(except) && t in openupval && openupval == old(openupval)[t := openupval[t]]
        invariant OpenNotBlack(body, marked) && KindsOk(body, fixed, mainthread)
        invariant openupval[t] != [] ==> openupval[t][0] in body && body[openupval[t][0]].OpenUpval?
        invariant FromOpen(old(body), old(rootgc), rootgc)
        invariant old(sweepgc) == 0 ==> sweepgc == 0
        invariant Swept(old(body), old(marked), body, marked, currentwhite, fixed)
        invariant old(SweptPrefix()) ==> SweptPrefix()
        invariant SweepWork() <= old(SweepWork())
        invariant ClosedDown(old(body), old(marked), body, t, level, OtherWhite(currentwhite), openupval[t])
        invariant SameMarks(old(marked), marked, openupval[t])
        decreases |uvhead|
      {
        ghost var h, m, r := body, marked, rootgc;
        CloseNext(t, level, except, old(body), old(marked));
        FromOpenThen(old(body), old(marked), h, m, currentwhite, fixed, old(rootgc), r, rootgc);
        SweptThen(old(body), old(marked), h, m, body, marked, currentwhite, fixed);
        if openupval[t] != [] {
          OwnedUpval(body, rootgc, strt, openupval, uvhead, except, t, 0);
        }
      }
      if openupval[t] != [] {
        OpenFirst(body, rootgc, strt, openupval, uvhead, except, marked, fixed, mainthread, t);
      }
      DownEnd(old(body), old(marked), body, t, level, OtherWhite(currentwhite), openupval[t]);
    }

    /** `freeobj` on an object that has left the root list.  A thread first has
        its open upvalues closed (`luaE_freethread`). */
    method FreeObject(o: Id)
      requires Shape({o}) && o !in rootgc && gcstate != Propagate && SweptPrefix()
      requires o in body && !body[o].Str? && !body[o].OpenUpval? && marked[o] == OtherWhite(currentwhite) && o !in fixed
      requires OpenNotBlack(body, marked) && KindsOk(body, fixed, mainthread) && mainthread in fixed
      modifies `body, `marked, `openupval, `uvhead, `rootgc, `sweepgc
      ensures Shape({}) && SweptPrefix()
      ensures Swept(old(body), old(marked), body, marked, currentwhite, fixed)
      ensures SweepWork() <= old(SweepWork())
    {
      hide Owned, Swept, Cut, Prefix, OpenNotBlack, KindsOk, ClosedDown, FromOpen;
      SweptNothing(body, marked, currentwhite, fixed);
      if body[o].Thread? {
        OwnedMembers(body, rootgc, strt, openupval, uvhead, {o});
        Close(o, 0, {o});
        FreeAfterClose(old(body), old(marked), body, marked, currentwhite, fixed, old(rootgc), rootgc, o);
        NonEmpty(openupval[o]);
      }
      OwnedMembers(body, rootgc, strt, openupval, uvhead, {o});
      FreeRoot(body, marked, rootgc, strt, openupval, uvhead, o, currentwhite, fixed);
      PrefixFree(marked, openupval, rootgc, sweepgc, currentwhite, o);
      SweptThen(old(body), old(marked), body, marked, body - {o}, marked - {o}, currentwhite, fixed);
      body := body - {o};
      marked := marked - {o};
      openupval := openupval - {o};
    }

    /** One turn of `sweeplist` over the root list, first half: the open
        upvalues of a thread are swept before the thread itself. */
    method SweepThread(o: Id)
      requires Shape({}) && SweptPrefix() && o in openupval
      requires OpenNotBlack(body, marked) && KindsOk(body, fixed, mainthread) && mainthread in fixed
      modifies `body, `marked, `openupval, `uvhead
      ensures Shape({}) && SweptPrefix() && o in openupval
      ensures Whitened(marked, openupval[o], |openupval[o]|, currentwhite)
      ensures Swept(old(body), old(marked), body, marked, currentwhite, fixed)
      ensures OpenNotBlack(body, marked) && KindsOk(body, fixed, mainthread)
      ensures SweepWork() <= old(SweepWork())
    {
      hide Owned, Swept, Prefix, Whitened, OpenNotBlack, KindsOk;
      SweepOpen(o, {});
      PrefixOpenSwept(old(body), old(marked), body, marked, currentwhite, fixed,
                      rootgc, strt, old(openupval), openupval, uvhead, o, sweepgc);
      SweptKinds(old(body), old(marked), body, marked, currentwhite, fixed, mainthread);
    }

    /** Second half: the object at `sweepgc` is made white or freed. */
    method SweepObject()
      requires Shape({}) && SweptPrefix() && sweepgc < |rootgc| && gcstate != Propagate
      requires rootgc[sweepgc] in openupval ==>
                 Whitened(marked, openupval[rootgc[sweepgc]], |openupval[rootgc[sweepgc]]|, currentwhite)
      requires OpenNotBlack(body, marked) && KindsOk(body, fixed, mainthread) && mainthread in fixed
      modifies `body, `marked, `openupval, `uvhead, `rootgc, `sweepgc
      ensures Shape({}) && SweptPrefix()
      ensures Swept(old(body), old(marked), body, marked, currentwhite, fixed)
      ensures SweepWork() < old(SweepWork())
    {
      hide Owned, Swept, Prefix, Whitened, OpenNotBlack, KindsOk, Cut;
      RootListAt(body, rootgc, strt, openupval, uvhead, sweepgc);
      var curr := rootgc[sweepgc];
      if marked[curr] != OtherWhite(currentwhite) || curr in fixed {
        PrefixOneMore(marked, openupval, rootgc, sweepgc, currentwhite);
        SweptWhiten(body, marked, curr, currentwhite, fixed);
        marked := marked[curr := currentwhite];
        sweepgc := sweepgc + 1;
      } else {
        PrefixCut(marked, openupval, rootgc, sweepgc, currentwhite);
        CutLength(rootgc, sweepgc);
        rootgc := Cut(rootgc, sweepgc);
        FreeObject(curr);
      }
    }

    /** `sweeplist` on the root list, at most `count` objects from `sweepgc` on. */
    method SweepRoot(count: nat)
      requires Shape({}) && SweptPrefix() && gcstate != Propagate
      requires OpenNotBlack(body, marked) && KindsOk(body, fixed, mainthread) && mainthread in fixed
      modifies `body, `marked, `openupval, `uvhead, `rootgc, `sweepgc
      ensures Shape({}) && SweptPrefix()
      ensures Swept(old(body), old(marked), body, marked, currentwhite, fixed)
      ensures SweepWork() < old(SweepWork()) || count == 0 || sweepgc == |rootgc|
    {
      hide Owned, Swept, Prefix, Whitened, OpenNotBlack, KindsOk;
      SweptNothing(body, marked, currentwhite, fixed);
      var left := count;
      while sweepgc < |rootgc| && left > 0
        invariant Shape({}) && SweptPrefix()
        invariant OpenNotBlack(body, marked) && KindsOk(body, fixed, mainthread)
        invariant Swept(old(body), old(marked), body, marked, currentwhite, fixed)
        invariant left <= count && SweepWork() <= old(SweepWork())
        invariant left == count ==> sweepgc == old(sweepgc) && rootgc == old(rootgc)
        invariant left < count ==> SweepWork() < old(SweepWork())
        decreases left
      {
        SweepTurn(old(body), old(marked));
        left := left - 1;
      }
    }

    method SweepTurn(ghost h: Heap, ghost m: Marks)
      requires Shape({}) && SweptPrefix() && sweepgc < |rootgc| && gcstate != Propagate
      requires OpenNotBlack(body, marked) && KindsOk(body, fixed, mainthread) && mainthread in fixed
      requires Swept(h, m, body, marked, currentwhite, fixed)
      modifies `body, `marked, `openupval, `uvhead, `rootgc, `sweepgc
      ensures Shape({}) && SweptPrefix()
      ensures OpenNotBlack(body, marked) && KindsOk(body, fixed, mainthread)
      ensures Swept(h, m, body, marked, currentwhite, fixed)
      ensures SweepWork() < old(SweepWork())
    {
      hide Owned, Swept, Prefix, Whitened, OpenNotBlack, KindsOk;
      RootListAt(body, rootgc, strt, openupval, uvhead, sweepgc);
      if body[rootgc[sweepgc]].Thread? {
        SweepThread(rootgc[sweepgc]);
        SweptThen(h, m, old(body), old(marked), body, marked, currentwhite, fixed);
      }
      ghost var n, k := body, marked;
      SweepObject();
      SweptKinds(n, k, body, marked, currentwhite, fixed, mainthread);
      SweptThen(h, m, n, k, body, marked, currentwhite, fixed);
    }

    // ----- The phases -----

    ghost function Roots(): set<Id>
      reads this
    {
      {mainthread, registry, running} + Ids(mt)
    }

    /** What every step of collector and mutator keeps.  Safety follows from
        it: see `ReachableKept`. */
    ghost predicate Inv()
      reads this
    {
      Consistent(gcstate, body, marked, currentwhite, fixed, gray, grayagain, mainthread, registry, running, Roots(),
                 sweepgc, rootgc, openupval, uvhead, sweepstrgc, strt)
    }

    /** The main thread and its table of globals. */
    method MarkMain(ghost live: set<Id>)
      requires MarkInv({}, live, body.Keys) && mainthread in live && mainthread in body && body[mainthread].Thread?
      requires LuaHeap.Closed(body, live)
      modifies `marked, `gray
      ensures MarkInv({}, live, body.Keys) && AllMarked(marked, {mainthread})
    {
      hide Marking, Grew, AllMarked, LuaHeap.Closed;
      MarkObject(mainthread, {}, live, body.Keys);
      ghost var m := marked;
      ClosedAt(body, live, mainthread);
      MarkObject(body[mainthread].gt, {}, live, body.Keys);
      GrewThen(m, m, marked, {mainthread}) by { GrewNothing(m); }
    }

    /** What the fields of the state name is in the heap and not dead. */
    lemma RootsThere()
      requires Inv()
      ensures forall r :: r == mainthread || r == registry || r == running || r in mt ==>
                r in body && r in marked && marked[r] != OtherWhite(currentwhite)
      ensures body[mainthread].Thread? && body[running].Thread?
    {
      hide InPhase, Owned, OpenNotBlack, Interned;
      forall r | r == mainthread || r == registry || r == running || r in mt
        ensures r in Roots()
      {
      }
    }

    /** The objects that the fields name are there with their references. */
    ghost predicate RootsKept(h: Heap)
      reads this
    {
      forall r :: r == mainthread || r == registry || r == running || r in mt ==>
        r in h && r in body && Refs(body, r) == Refs(h, r)
    }

    /** A chain of references from an object that a field names to `o`. */
    ghost predicate Leads(h: Heap, p: seq<Id>, o: Id)
      reads this
    {
      && p != [] && p[|p| - 1] == o && (p[0] == mainthread || p[0] == registry || p[0] == running || p[0] in mt)
      && forall i :: 0 <= i < |p| - 1 ==> p[i] in h && Holds(h, p[i], p[i + 1])
    }

    /** Some chain leads there. */
    ghost predicate Led(h: Heap, o: Id)
      reads this
    {
      exists p :: Leads(h, p, o)
    }

    lemma LeadsExactly(h: Heap, o: Id)
      ensures Reachable(h, Roots(), o) <==> Led(h, o)
    {
      hide Reachable, Holds, Refs;
      if Reachable(h, Roots(), o) {
        var p := ReachablePath(h, Roots(), o);
        forall i | 0 <= i < |p| - 1
          ensures p[i] in h && Holds(h, p[i], p[i + 1])
        {
          RefsHold(h, p[i]);
        }
        assert Leads(h, p, o);
      }
      if p :| Leads(h, p, o) {
        forall i | 0 <= i < |p| - 1
          ensures p[i] in h && p[i + 1] in Refs(h, p[i])
        {
          RefsHold(h, p[i]);
        }
        PathReachable(h, Roots(), p);
      }
    }

    /** In the heap and not dead. */
    ghost predicate Lives(o: Id)
      reads this
    {
      o in body && o in marked && White(currentwhite) && marked[o] != OtherWhite(currentwhite)
    }

    /** Nothing that is not dead holds anything dead or gone, kind by kind. */
    lemma NothingDangles(o: Id)
      requires Inv() && Lives(o)
      ensures match body[o]
        case Str(_, _) => true
        case Udata(refs) => forall r :: r in refs ==> Lives(r)
        case Func(refs) => forall r :: r in refs ==> Lives(r)
        case Tab(refs) => forall r :: r in refs ==> Lives(r)
        case Proto(refs) => forall r :: r in refs ==> Lives(r)
        case Thread(stack, gt) => Lives(gt) && forall i :: 0 <= i < |stack| && stack[i].Ref? ==> Lives(stack[i].id)
        case OpenUpval(t, level) =>
          t in body && body[t].Thread? && level < |body[t].stack| && body[t].stack[level].Ref? ==> Lives(body[t].stack[level].id)
        case ClosedUpval(v) => v.Ref? ==> Lives(v.id)
    {
      hide InPhase, Owned, OpenNotBlack, KindsOk;
      RefsHold(body, o);
      assert forall r :: r in Refs(body, o) ==> Lives(r);
      match body[o]
      case Thread(stack, gt) =>
        forall i | 0 <= i < |stack| && stack[i].Ref?
          ensures Lives(stack[i].id)
        {
          assert Points(stack[i], stack[i].id);
        }
      case OpenUpval(t, level) =>
      case ClosedUpval(v) =>
      case _ =>
    }

    /** `markroot`. */
    method MarkRoot(ghost live: set<Id>)
      requires body.Keys == marked.Keys && White(currentwhite) && AllWhite(marked, currentwhite)
      requires LuaHeap.Closed(body, live) && live <= body.Keys && Roots() <= live
      requires body[mainthread].Thread?
      modifies `marked, `gray, `grayagain, `gcstate
      ensures MarkInv({}, live, body.Keys) && gcstate == Propagate
      ensures AllMarked(marked, {mainthread, registry})
      ensures forall r :: r == mainthread || r == registry || r in mt ==> r in marked && !White(marked[r])
    {
      hide Marking, Grew, AllMarked, AllWhite, LuaHeap.Closed, Ids;
      FreshMarking(body, marked, currentwhite, live);
      gray := [];
      grayagain := [];
      MarkMain(live);
      ghost var n := marked;
      MarkObject(registry, {}, live, body.Keys);
      GrewThen(n, n, marked, {mainthread}) by { GrewNothing(n); }
      MarkedBoth(marked, {mainthread}, {registry});
      ghost var k := marked;
      MarkAll(mt, {}, live, body.Keys);
      GrewThen(n, k, marked, {mainthread} + {registry});
      assert {mainthread} + {registry} == {mainthread, registry};
      MarkedEach(marked, mt, {mainthread, registry});
      gcstate := Propagate;
    }

    lemma MarkedEach(m: Marks, refs: seq<Id>, others: set<Id>)
      requires AllMarked(m, Ids(refs)) && AllMarked(m, others)
      ensures forall r :: r in others || r in refs ==> r in m && !White(m[r])
    {
    }

    /** `remarkupvals`: values of gray open upvalues of (maybe) dead threads. */
    method RemarkUpvals(ghost live: set<Id>, ghost dirty: set<Id>)
      requires MarkInv({}, live, dirty) && Owned(body, rootgc, strt, openupval, uvhead, {})
      modifies `marked, `gray
      ensures MarkInv({}, live, Threads(body))
      ensures Grew(old(marked), marked)
    {
      hide Marking, Grew, AllMarked, Threads, Ids, OpenLists, RootList, StringTable;
      DirtyUpvals(body, marked, currentwhite, gray, grayagain, live, dirty, openupval, uvhead);
      GrewNothing(marked);
      for i := 0 to |uvhead|
        invariant MarkInv({}, live, Threads(body) + Ids(uvhead[i..]))
        invariant Grew(old(marked), marked)
      {
        ghost var m := marked;
        RemarkUpval(i, live);
        GrewThen(old(marked), m, marked, {});
      }
      RemarkedAll(body, marked, currentwhite, gray, grayagain, live, uvhead);
    }

    method RemarkUpval(i: nat, ghost live: set<Id>)
      requires i < |uvhead| && MarkInv({}, live, Threads(body) + Ids(uvhead[i..]))
      requires OpenLists(body, openupval, uvhead)
      modifies `marked, `gray
      ensures MarkInv({}, live, Threads(body) + Ids(uvhead[i + 1..]))
      ensures Grew(old(marked), marked)
    {
      hide Marking, Grew, AllMarked, Threads, Ids, OpenLists;
      UvheadAt(body, openupval, uvhead, i);
      MarkingFacts(body, marked, currentwhite, gray, grayagain, {}, live, Threads(body) + Ids(uvhead[i..]));
      var u := uvhead[i];
      GrewNothing(marked);
      if marked[u] == Gray {
        GrayLive(body, marked, currentwhite, gray, grayagain, {}, live, Threads(body) + Ids(uvhead[i..]), u);
        RefsOf(body, u);
        MarkValue(ReadSlot(body[u].thread, body[u].level), {}, live, Threads(body) + Ids(uvhead[i..]));
      }
      RemarkedUpval(body, marked, currentwhite, gray, grayagain, live, uvhead, i);
    }

    /** `atomic`: finishes marking and turns the remaining white into dead. */
    method Atomic(ghost live: set<Id>)
      requires MarkInv({}, live, body.Keys) && Owned(body, rootgc, strt, openupval, uvhead, {})
      requires AllMarked(marked, {mainthread, registry}) && Roots() <= live && gray == []
      modifies `marked, `gray, `grayagain, `currentwhite, `sweepstrgc, `sweepgc, `gcstate
      ensures body.Keys == marked.Keys && White(currentwhite)
      ensures Alive(body, marked, OtherWhite(currentwhite), Roots()) && OpenNotBlack(body, marked)
      ensures forall o :: o in body && marked[o] != OtherWhite(currentwhite) ==> o in live
      ensures forall r :: r == mainthread || r == registry || r == running || r in mt ==> r in marked && !White(marked[r])
      ensures sweepstrgc == 0 && sweepgc == 0 && gcstate == SweepString
    {
      hide Marking, Grew, Kept, AllMarked, Threads, Ids, Owned, Alive, OpenNotBlack, OnlyThreads;
      MarkRest(live);
      RootsMarked();
      AtomicDone(body, marked, currentwhite, grayagain, live, Roots());
      MarkingFacts(body, marked, currentwhite, gray, grayagain, {}, live, {});
      assert OtherWhite(OtherWhite(currentwhite)) == currentwhite;
      currentwhite := OtherWhite(currentwhite);
      sweepstrgc := 0;
      sweepgc := 0;
      gcstate := SweepString;
    }

    lemma RootsMarked()
      requires AllMarked(marked, Roots())
      ensures forall r :: r == mainthread || r == registry || r == running || r in mt ==> r in marked && !White(marked[r])
    {
      assert forall r :: r == mainthread || r == registry || r == running || r in mt ==> r in Roots();
    }

    /** The marking part of `atomic`. */
    method MarkRest(ghost live: set<Id>)
      requires MarkInv({}, live, body.Keys) && Owned(body, rootgc, strt, openupval, uvhead, {})
      requires AllMarked(marked, {mainthread, registry}) && Roots() <= live && gray == []
      modifies `marked, `gray, `grayagain
      ensures MarkInv({}, live, {}) && gray == [] && OnlyThreads(body, grayagain)
      ensures AllMarked(marked, Roots())
    {
      hide Marking, Grew, Kept, AllMarked, Threads, Ids, Owned, OnlyThreads;
      RemarkUpvals(live, body.Keys);
      KeptMarked(old(marked), marked, {mainthread, registry});
      ghost var m := marked;
      PropagateAll(live, Threads(body));
      KeptMarked(m, marked, {mainthread, registry});
      RemarkRoots(live);
      ghost var n := marked;
      GrayAgain(body, marked, currentwhite, grayagain, live);
      gray := grayagain;
      grayagain := [];
      OnlyThreadsNone(body);
      PropagateAll(live, {});
      KeptMarked(n, marked, Roots());
    }

    /** The middle of `atomic`: the running thread and the basic metatables. */
    method RemarkRoots(ghost live: set<Id>)
      requires MarkInv({}, live, Threads(body)) && AllMarked(marked, {mainthread, registry})
      requires Roots() <= live && gray == []
      modifies `marked, `gray, `grayagain
      ensures MarkInv({}, live, Threads(body)) && gray == []
      ensures AllMarked(marked, Roots())
    {
      hide Marking, Grew, Kept, AllMarked, Threads, Ids, OnlyThreads;
      MarkObject(running, {}, live, Threads(body));
      KeptMarked(old(marked), marked, {mainthread, registry});
      MarkedBoth(marked, {mainthread, registry}, {running});
      ghost var m := marked;
      MarkAll(mt, {}, live, Threads(body));
      KeptMarked(m, marked, {mainthread, registry} + {running});
      MarkedBoth(marked, {mainthread, registry} + {running}, Ids(mt));
      assert {mainthread, registry} + {running} + Ids(mt) == Roots();
      ghost var n := marked;
      PropagateAll(live, Threads(body));
      KeptMarked(n, marked, Roots());
    }

    /** A closed set that holds the roots and all that is marked so far. */
    ghost predicate LiveOk(live: set<Id>)
      reads this
    {
      && Roots() <= live && live <= body.Keys && LuaHeap.Closed(body, live)
      && (gcstate == Propagate ==> MarkInv({}, live, body.Keys))
    }

    method StepPause(ghost live: set<Id>)
      requires Inv() && LiveOk(live) && (gcstate == Pause || gcstate == Finalize)
      modifies `marked, `gray, `grayagain, `gcstate
      ensures Inv() && LiveOk(live) && gcstate == Propagate
    {
      hide Marking, AllMarked, AllWhite, LuaHeap.Closed, Owned, Alive, OpenNotBlack, KindsOk, Prefix, Buckets, Ids;
      KindsOkFacts(body, fixed, mainthread);
      AllWhiteAlive(body, marked, currentwhite, Roots());
      MarkRoot(live);
      MarkingAlive(body, marked, currentwhite, gray, grayagain, live, body.Keys, Roots());
      MarkingFacts(body, marked, currentwhite, gray, grayagain, {}, live, body.Keys);
    }

    method StepMark(ghost live: set<Id>)
      requires Inv() && LiveOk(live) && gcstate == Propagate && gray != []
      modifies `marked, `gray, `grayagain
      ensures Inv() && LiveOk(live)
      ensures Work() < old(Work())
    {
      hide Marking, AllMarked, AllWhite, LuaHeap.Closed, Owned, Alive, OpenNotBlack, KindsOk, Prefix, Buckets, Ids, Kept;
      AliveFacts(body, marked, currentwhite, gray, grayagain, live, body.Keys, Roots());
      PropagateMark(live, body.Keys);
      KeptMarked(old(marked), marked, {mainthread, registry});
      MarkingAlive(body, marked, currentwhite, gray, grayagain, live, body.Keys, Roots());
      MarkingFacts(body, marked, currentwhite, gray, grayagain, {}, live, body.Keys);
    }

    method StepAtomic(ghost live: set<Id>)
      requires Inv() && LiveOk(live) && gcstate == Propagate && gray == []
      modifies `marked, `gray, `grayagain, `currentwhite, `sweepstrgc, `sweepgc, `gcstate
      ensures Inv() && gcstate == SweepString
      ensures forall o :: o in body && marked[o] != OtherWhite(currentwhite) ==> o in live
    {
      hide Marking, AllMarked, AllWhite, LuaHeap.Closed, Owned, Alive, OpenNotBlack, KindsOk, Prefix, Buckets, Ids;
      Atomic(live);
      BucketsNone(marked, strt, currentwhite);
      OwnedBuckets(body, rootgc, strt, openupval, uvhead, {});
    }

    method StepSweepString()
      requires Inv() && gcstate == SweepString
      modifies `body, `marked, `strt, `sweepstrgc, `gcstate
      ensures Inv() && Swept(old(body), old(marked), body, marked, currentwhite, fixed)
      ensures |strt| == |old(strt)|
      ensures gcstate == Sweep || (gcstate == SweepString && sweepstrgc == old(sweepstrgc) + 1 && sweepstrgc < |strt|)
    {
      hide AllWhite, Owned, Alive, OpenNotBlack, KindsOk, Prefix, Buckets, Ids, Swept, Whitened;
      var b := sweepstrgc;
      SweepBucket(b);
      sweepstrgc := sweepstrgc + 1;
      BucketsOneMore(old(body), old(marked), body, marked, currentwhite, fixed, rootgc, old(strt), strt, openupval, uvhead, b);
      SweptKinds(old(body), old(marked), body, marked, currentwhite, fixed, mainthread);
      SweptAlive(old(body), old(marked), body, marked, currentwhite, fixed, Roots(), mainthread);
      SweptThreadKept(old(body), old(marked), body, marked, currentwhite, fixed, Roots(), running);
      if sweepstrgc >= |strt| {
        PrefixNone(marked, openupval, rootgc, currentwhite);
        gcstate := Sweep;
      }
    }

    method StepSweep()
      requires Inv() && gcstate == Sweep
      modifies `body, `marked, `openupval, `uvhead, `rootgc, `sweepgc, `gcstate
      ensures Inv() && Swept(old(body), old(marked), body, marked, currentwhite, fixed)
      ensures gcstate == Finalize || (gcstate == Sweep && sweepgc <= |rootgc| && SweepWork() < old(SweepWork()))
    {
      hide AllWhite, Owned, Alive, OpenNotBlack, KindsOk, Prefix, Buckets, Ids, Swept, Whitened;
      SweepRoot(GCSWEEPMAX);
      BucketsKept(old(body), old(marked), body, marked, currentwhite, fixed, rootgc, strt, openupval, uvhead, |strt|);
      SweptKinds(old(body), old(marked), body, marked, currentwhite, fixed, mainthread);
      SweptAlive(old(body), old(marked), body, marked, currentwhite, fixed, Roots(), mainthread);
      SweptThreadKept(old(body), old(marked), body, marked, currentwhite, fixed, Roots(), running);
      if sweepgc == |rootgc| {
        SweepDone(body, marked, currentwhite, rootgc, strt, openupval, uvhead);
        gcstate := Finalize;
      }
    }

    method StepFinalize()
      requires Inv() && gcstate == Finalize
      modifies `gcstate
      ensures Inv() && gcstate == Pause
    {
      gcstate := Pause;
    }

    /** All that is in the heap is live enough for marking to go on. */
    lemma AllLive()
      requires Inv() && (gcstate == Pause || gcstate == Propagate)
      ensures LiveOk(body.Keys)
    {
      hide Marking, AllMarked, AllWhite, LuaHeap.Closed, Owned, Alive, OpenNotBlack, KindsOk, NoneDead;
      InvFacts();
      AliveIsClosed(body, marked, OtherWhite(currentwhite), Roots());
    }

    /** `singlestep` from any state that keeps the invariant: what the program
        can reach stays as it is, whatever the phase. */
    method Step()
      requires Inv()
      modifies `body, `marked, `openupval, `uvhead, `rootgc, `sweepgc, `strt, `sweepstrgc,
               `gray, `grayagain, `currentwhite, `gcstate
      ensures Inv() && body.Keys <= old(body).Keys
      ensures forall o :: Reachable(old(body), Roots(), o) <==> Reachable(body, Roots(), o)
      ensures forall o :: Reachable(body, Roots(), o) ==> o in old(body) && o in body && Refs(body, o) == Refs(old(body), o)
      ensures forall o :: o in old(body) && o !in body ==> o in old(marked) && old(marked)[o] == OtherWhite(currentwhite)
      ensures forall r :: r == mainthread || r == registry || r == running || r in mt ==>
                r in old(body) && r in body && Refs(body, r) == Refs(old(body), r)
    {
      hide Inv, LiveOk, Swept, Reachable, Refs, Alive, NoneDead, AllWhite, Rank, PhaseWork;
      InvFacts();
      if gcstate == Pause || gcstate == Propagate { AllLive(); }
      SingleStep(body.Keys);
      if old(gcstate) == SweepString || old(gcstate) == Sweep {
        SweptRefs(old(body), old(marked), body, marked, currentwhite, fixed);
        SweptFreed(old(body), old(marked), body, marked, currentwhite, fixed);
        forall o
          ensures Reachable(old(body), Roots(), o) <==> Reachable(body, Roots(), o)
        {
          SweptReachable(old(body), old(marked), body, marked, currentwhite, fixed, Roots(), o);
        }
      }
      forall o | Reachable(body, Roots(), o)
        ensures o in body
      {
        ReachableKept(o);
      }
    }

    /** `singlestep`: one bounded piece of a collection. */
    method SingleStep(ghost live: set<Id>)
      requires Inv() && (gcstate == Pause || gcstate == Propagate ==> LiveOk(live))
      modifies `body, `marked, `openupval, `uvhead, `rootgc, `sweepgc, `strt, `sweepstrgc,
               `gray, `grayagain, `currentwhite, `gcstate
      ensures Inv()
      ensures old(gcstate) == Pause ==> gcstate == Propagate && LiveOk(live) && body == old(body)
      ensures old(gcstate) == Propagate ==> body == old(body) && (gcstate == Propagate || gcstate == SweepString)
      ensures old(gcstate) == SweepString ==> gcstate == SweepString || gcstate == Sweep
      ensures old(gcstate) == Sweep ==> gcstate == Sweep || gcstate == Finalize
      ensures old(gcstate) == Propagate && gcstate == Propagate ==> LiveOk(live)
      ensures old(gcstate) == Propagate && gcstate != Propagate ==>
                forall o :: o in body && marked[o] != OtherWhite(currentwhite) ==> o in live
      ensures old(gcstate) == SweepString || old(gcstate) == Sweep ==>
                currentwhite == old(currentwhite) && Swept(old(body), old(marked), body, marked, currentwhite, fixed)
      ensures old(gcstate) == Finalize ==>
                gcstate == Pause && body == old(body) && marked == old(marked) && currentwhite == old(currentwhite)
      ensures old(gcstate) != Pause ==>
                Rank() < old(Rank()) || (Rank() == old(Rank()) && PhaseWork() < old(PhaseWork()))
      ensures RootsKept(old(body))
    {
      hide Inv, LiveOk, Swept, Roots, RootsKept;
      InvFacts();
      match gcstate {
        case Pause => StepPause(live);
        case Propagate => if gray != [] { StepMark(live); } else { StepAtomic(live); }
        case SweepString => StepSweepString();
        case Sweep => StepSweep();
        case Finalize => StepFinalize();
      }
      InvFacts();
      SameOrSwept(old(body), old(marked));
    }

    lemma SameOrSwept(h: Heap, m: Marks)
      requires Inv() && White(currentwhite) && (body == h || Swept(h, m, body, marked, currentwhite, fixed))
      ensures RootsKept(h)
    {
      hide Inv, Swept, Refs;
      RootsThere();
      if body != h { SweptRefs(h, m, body, marked, currentwhite, fixed); }
    }

    ghost function Rank(): nat
      reads this
    {
      match gcstate
      case Propagate => 4
      case SweepString => 3
      case Sweep => 2
      case Finalize => 1
      case Pause => 0
    }

    ghost function PhaseWork(): nat
      reads this
    {
      match gcstate
      case Propagate => Work()
      case SweepString => if sweepstrgc <= |strt| then |strt| - sweepstrgc else 0
      case Sweep => if sweepgc <= |rootgc| then SweepWork() else 0
      case _ => 0
    }

    /** The first half of `luaC_fullgc`: an unfinished marking is abandoned,
        which makes the following sweep free nothing, and the sweep completed. */
    method FinishSweep()
      requires Inv()
      modifies `body, `marked, `openupval, `uvhead, `rootgc, `sweepgc, `strt, `sweepstrgc,
               `gray, `grayagain, `currentwhite, `gcstate
      ensures Inv() && gcstate == Finalize && currentwhite == old(currentwhite)
      ensures White(currentwhite) && Swept(old(body), old(marked), body, marked, currentwhite, fixed)
      ensures old(gcstate) == Pause || old(gcstate) == Propagate ==> body.Keys == old(body).Keys
    {
      hide Inv, Swept, Roots, LiveOk, NoneDead;
      InvFacts();
      SweptNothing(body, marked, currentwhite, fixed);
      if gcstate == Pause || gcstate == Propagate {
        AbandonMarking();
      }
      while gcstate != Finalize
        invariant Inv() && currentwhite == old(currentwhite)
        invariant gcstate == SweepString || gcstate == Sweep || gcstate == Finalize
        invariant Swept(old(body), old(marked), body, marked, currentwhite, fixed)
        decreases Rank(), PhaseWork()
      {
        ghost var h, m := body, marked;
        InvFacts();
        SingleStep({});
        SweptThen(old(body), old(marked), h, m, body, marked, currentwhite, fixed);
      }
      if old(gcstate) == Pause || old(gcstate) == Propagate {
        SweptNoneDead(old(body), old(marked), body, marked, currentwhite, fixed);
      }
    }

    lemma InvFacts()
      requires Inv()
      ensures body.Keys == marked.Keys && White(currentwhite) && fixed <= body.Keys
      ensures gcstate == Pause || gcstate == Propagate || gcstate == Finalize ==> NoneDead(marked, OtherWhite(currentwhite))
      ensures gcstate == Pause || gcstate == Finalize ==> AllWhite(marked, currentwhite)
      ensures Alive(body, marked, OtherWhite(currentwhite), Roots())
      ensures gcstate == SweepString ==> sweepstrgc < |strt|
      ensures gcstate == Sweep ==> sweepgc <= |rootgc|
    {
    }

    method AbandonMarking()
      requires Inv() && (gcstate == Pause || gcstate == Propagate)
      modifies `sweepgc, `sweepstrgc, `gray, `grayagain, `gcstate
      ensures Inv() && gcstate == SweepString
    {
      hide Marking, AllMarked, AllWhite, LuaHeap.Closed, Owned, Alive, OpenNotBlack, KindsOk, Prefix, Buckets, Ids;
      OwnedBuckets(body, rootgc, strt, openupval, uvhead, {});
      BucketsNone(marked, strt, currentwhite);
      sweepstrgc := 0;
      sweepgc := 0;
      gray := [];
      grayagain := [];
      gcstate := SweepString;
    }

    /** `luaC_fullgc`: exactly the reachable and the fixed objects are left. */
    method FullGc()
      requires Inv()
      modifies `body, `marked, `openupval, `uvhead, `rootgc, `sweepgc, `strt, `sweepstrgc,
               `gray, `grayagain, `currentwhite, `gcstate
      ensures Inv() && gcstate == Pause
      ensures forall o :: o in body <==> Reachable(old(body), old(Roots()), o) || o in fixed
      ensures forall o :: o in body <==> Led(old(body), o) || o in fixed
      ensures forall o :: o in body ==> o in old(body) && Refs(body, o) == Refs(old(body), o)
      ensures forall r :: r == mainthread || r == registry || r == running || r in mt ==>
                r in old(body) && r in body && Refs(body, r) == Refs(old(body), r)
    {
      hide Inv, Swept, LiveOk, Reachable, Alive, LuaHeap.Closed, AllWhite, Refs, Ids, NoneDead, Led;
      InvFacts();
      FinishSweep();
      ghost var h, m, currentwhiteWas := body, marked, currentwhite;
      forall o ensures Reachable(old(body), old(Roots()), o) <==> Reachable(h, Roots(), o) {
        SweptReachable(old(body), old(marked), h, m, currentwhite, fixed, Roots(), o);
      }
      InvFacts();
      LiveClosed(body, marked, OtherWhite(currentwhite), Roots());
      ghost var live := Live(body, Roots());
      Collect(live);
      SweptRefs(old(body), old(marked), h, m, currentwhiteWas, fixed);
      forall o
        ensures Reachable(old(body), Roots(), o) <==> Led(old(body), o)
      {
        LeadsExactly(old(body), o);
      }
      RootsThere();
      assert forall r :: r in Roots() ==> Reachable(old(body), Roots(), r);
    }

    /** The second half of `luaC_fullgc`: one whole collection. */
    method Collect(ghost live: set<Id>)
      requires Inv() && gcstate == Finalize && live == Live(body, Roots())
      modifies `body, `marked, `openupval, `uvhead, `rootgc, `sweepgc, `strt, `sweepstrgc,
               `gray, `grayagain, `currentwhite, `gcstate
      ensures Inv() && gcstate == Pause && body.Keys == live + fixed
      ensures forall o :: o in body ==> o in old(body) && Refs(body, o) == Refs(old(body), o)
    {
      hide Inv, Swept, LiveOk, Reachable, Alive, LuaHeap.Closed, AllWhite, Refs, Ids, Live, NoneDead, KindsOk, Rank, PhaseWork, AfterMark;
      InvFacts();
      LiveClosed(body, marked, OtherWhite(currentwhite), Roots());
      LiveOkIntro(live);
      StepPause(live);
      InvFacts();
      ghost var h, m := body, marked;
      while gcstate != Pause
        invariant Inv()
        invariant gcstate == Propagate ==> body == h && LiveOk(live)
        invariant gcstate != Propagate ==> AfterMark(h, m, live)
        invariant live == Live(h, Roots())
        decreases Rank(), PhaseWork()
      {
        m := CollectTurn(h, m, live);
      }
      CollectDone(h, m, live);
    }

    method CollectTurn(ghost h: Heap, ghost m: Marks, ghost live: set<Id>) returns (ghost after: Marks)
      requires Inv() && gcstate != Pause && live == Live(h, Roots())
      requires gcstate == Propagate ==> body == h && LiveOk(live)
      requires gcstate != Propagate ==> AfterMark(h, m, live)
      modifies `body, `marked, `openupval, `uvhead, `rootgc, `sweepgc, `strt, `sweepstrgc,
               `gray, `grayagain, `currentwhite, `gcstate
      ensures Inv()
      ensures gcstate == Propagate ==> body == h && LiveOk(live)
      ensures gcstate != Propagate ==> AfterMark(h, after, live)
      ensures Rank() < old(Rank()) || (Rank() == old(Rank()) && PhaseWork() < old(PhaseWork()))
    {
      hide Inv, Swept, LiveOk, Reachable, Alive, LuaHeap.Closed, AllWhite, Refs, Ids, Live, NoneDead, KindsOk, Rank, PhaseWork;
      SingleStep(live);
      InvFacts();
      after := m;
      if old(gcstate) == Propagate && gcstate != Propagate {
        after := marked;
        MarkDone(h, live);
      } else if old(gcstate) == SweepString || old(gcstate) == Sweep {
        SweptThen(h, m, old(body), old(marked), body, marked, currentwhite, fixed);
      }
    }

    /** After `atomic` with colours `m`: what is not dead in `m` is `live`. */
    ghost predicate AfterMark(h: Heap, m: Marks, live: set<Id>)
      reads this
    {
      && White(currentwhite) && fixed <= h.Keys && h.Keys == m.Keys
      && Swept(h, m, body, marked, currentwhite, fixed)
      && (forall o :: o in h && m[o] != OtherWhite(currentwhite) ==> o in live)
      && (forall o :: o in live ==> o in h && m[o] != OtherWhite(currentwhite))
    }

    lemma CollectDone(h: Heap, m: Marks, live: set<Id>)
      requires Inv() && gcstate == Pause && AfterMark(h, m, live)
      ensures body.Keys == live + fixed
      ensures forall o :: o in body ==> o in h && Refs(body, o) == Refs(h, o)
    {
      hide Inv, Swept, Refs, AllWhite;
      InvFacts();
      SweptToEnd(h, m, body, marked, currentwhite, fixed, live);
      SweptRefs(h, m, body, marked, currentwhite, fixed);
    }

    lemma LiveOkIntro(live: set<Id>)
      requires gcstate != Propagate && Roots() <= live && live <= body.Keys && LuaHeap.Closed(body, live)
      ensures LiveOk(live)
    {
    }

    lemma MarkDone(h: Heap, live: set<Id>)
      requires body == h && live == Live(h, Roots()) && body.Keys == marked.Keys && White(currentwhite) && fixed <= body.Keys
      requires Alive(body, marked, OtherWhite(currentwhite), Roots())
      requires forall o :: o in body && marked[o] != OtherWhite(currentwhite) ==> o in live
      ensures AfterMark(h, marked, live)
    {
      LiveClosed(body, marked, OtherWhite(currentwhite), Roots());
      SweptNothing(body, marked, currentwhite, fixed);
    }

    // ----- The mutator -----

    /** Outside marking, recolouring a black object (the barriers) keeps `Inv`. */
    method Recolour(o: Id, c: Colour)
      requires Inv() && gcstate != Propagate && o in marked && marked[o] == Black
      requires c == currentwhite || c == Gray
      modifies `marked
      ensures Inv()
    {
      hide Marking, Owned, Alive, OpenNotBlack, KindsOk, Prefix, Buckets, Ids;
      BlackNotSwept(marked, openupval, rootgc, sweepgc, strt, if gcstate == SweepString then sweepstrgc else |strt|, currentwhite, o, c);
      BlackRecoloured(body, marked, OtherWhite(currentwhite), Roots(), o, c);
      marked := marked[o := c];
    }

    /** A store into an object, the colours left alone: what `Inv` then needs. */
    method Store(o: Id, b: Body, ghost extra: set<Id>)
      requires Inv() && o in body && Plain(body[o]) && Plain(b)
      requires (Listed(body[o]) <==> Listed(b)) && (body[o].Tab? <==> b.Tab?)
      requires Refs(body[o := b], o) <= Refs(body, o) + extra
      requires AllAlive(body, marked, OtherWhite(currentwhite), extra)
      requires gcstate == Propagate && marked[o] == Black ==> AllMarked(marked, Refs(body[o := b], o))
      modifies `body
      ensures Inv() && body == old(body)[o := b]
    {
      hide Marking, Owned, Alive, OpenNotBlack, KindsOk, Prefix, Buckets, Ids, Refs, AllMarked, AllAlive, NoneDead;
      OwnedWrite(body, rootgc, strt, openupval, uvhead, o, b);
      AliveWrite(body, marked, OtherWhite(currentwhite), Roots(), o, b, extra);
      PlainWrite(body, marked, fixed, mainthread, o, b);
      if gcstate == Propagate {
        NoneDeadMarking(body, marked, currentwhite, gray, grayagain, {}, body.Keys, body.Keys);
        AllAliveFacts(body, marked, currentwhite, o, Refs(body[o := b], o), extra, Roots());
        MarkingWrite(body, marked, currentwhite, gray, grayagain, o, b);
      }
      assert body[o := b].Keys == body.Keys;
      body := body[o := b];
    }

    /** A store of `v` into a black object while marking, with the forward barrier. */
    method StoreForward(o: Id, b: Body, v: Value)
      requires MarkInv({}, body.Keys, body.Keys) && o in body && Plain(body[o]) && Plain(b)
      requires (Listed(body[o]) <==> Listed(b)) && !body[o].Tab? && !b.Tab?
      requires Refs(body[o := b], o) <= Refs(body, o) + ValueIds(v) && Refs(body[o := b], o) <= body.Keys
      requires ValueIds(v) <= body.Keys && body.Keys == marked.Keys && White(currentwhite)
      requires gcstate == Propagate && marked[o] == Black
      modifies `body, `marked, `gray
      ensures MarkInv({}, body.Keys, body.Keys) && body == old(body)[o := b] && body.Keys == old(body).Keys
      ensures Grew(old(marked), marked)
    {
      hide Marking, Refs, AllMarked, Grew;
      TricolourAt(body, marked, currentwhite, gray, grayagain, body.Keys, body.Keys, o);
      MarkingWritePending(body, marked, currentwhite, gray, grayagain, o, b);
      assert body[o := b].Keys == body.Keys;
      body := body[o := b];
      Barrier(o, v);
      ForwardDone(old(body), old(marked), o, v);
    }

    lemma ForwardDone(h: Heap, m: Marks, o: Id, v: Value)
      requires MarkInv({o}, body.Keys, body.Keys) && o in m && m[o] == Black && Grew(m, marked) && o in h && o in body
      requires AllMarked(m, Refs(h, o)) && AllMarked(marked, ValueIds(v))
      requires Refs(body, o) <= Refs(h, o) + ValueIds(v) && !body[o].OpenUpval? && Plain(body[o])
      ensures MarkInv({}, body.Keys, body.Keys)
    {
      hide Marking, AllMarked, Refs;
      KeptMarked(m, marked, Refs(h, o));
      MarkedSubset(marked, Refs(body, o), Refs(h, o), ValueIds(v));
      assert marked[o] == Black && marked[o := Black] == marked;
      NotListed(body, marked, currentwhite, gray, grayagain, {o}, body.Keys, body.Keys, o);
      assert {} + {o} == {o};
      EndBlack(body, marked, currentwhite, gray, grayagain, {}, body.Keys, body.Keys, o);
    }

    /** Safety: what the program can reach is in the heap, and not dead. */
    lemma ReachableKept(o: Id)
      requires Inv() && Reachable(body, Roots(), o)
      ensures o in body && o in marked && marked[o] != OtherWhite(currentwhite)
    {
      hide Reachable;
      InvFacts();
      ReachableAlive(body, marked, OtherWhite(currentwhite), Roots(), o);
    }

    ghost predicate AllReachable(rs: set<Id>)
      reads this
    {
      forall r :: r in rs ==> Reachable(body, Roots(), r)
    }

    lemma AllReachableAlive(rs: set<Id>)
      requires Inv() && AllReachable(rs)
      ensures AllAlive(body, marked, OtherWhite(currentwhite), rs) && rs <= body.Keys
    {
      hide Reachable, Inv;
      InvFacts();
      forall r | r in rs ensures r in body && r in marked && marked[r] != OtherWhite(currentwhite) {
        assert Reachable(body, Roots(), r);
        ReachableKept(r);
      }
    }

    /** A store into a closure, prototype, userdata or closed upvalue, with
        `luaC_barrier`/`luaC_objbarrier`. */
    method SetObject(o: Id, b: Body, v: Value)
      requires Inv() && AllReachable({o}) && AllReachable(ValueIds(v))
      requires o in body && Plain(body[o]) && Plain(b) && !body[o].Tab? && !b.Tab? && (Listed(body[o]) <==> Listed(b))
      requires Refs(body[o := b], o) <= Refs(body, o) + ValueIds(v)
      modifies `body, `marked, `gray
      ensures Inv() && body == old(body)[o := b]
    {
      hide Inv, Reachable, Refs, AllAlive, AllMarked, AllReachable;
      InvFacts();
      AllReachableAlive(ValueIds(v));
      if v.Ref? && v.id in marked && White(marked[v.id]) && marked[o] == Black {
        if gcstate == Propagate {
          StoreForwardInv(o, b, v);
        } else {
          Store(o, b, ValueIds(v));
          Recolour(o, currentwhite);
        }
      } else {
        NothingWhite(o, b, v);
        Store(o, b, ValueIds(v));
      }
    }

    method StoreForwardInv(o: Id, b: Body, v: Value)
      requires Inv() && o in body && Plain(body[o]) && Plain(b)
      requires (Listed(body[o]) <==> Listed(b)) && !body[o].Tab? && !b.Tab?
      requires Refs(body[o := b], o) <= Refs(body, o) + ValueIds(v)
      requires AllAlive(body, marked, OtherWhite(currentwhite), ValueIds(v))
      requires gcstate == Propagate && o in marked && marked[o] == Black
      modifies `body, `marked, `gray
      ensures Inv() && body == old(body)[o := b]
    {
      hide Marking, Owned, Alive, OpenNotBlack, KindsOk, Prefix, Buckets, Ids, Refs, AllMarked, AllAlive, NoneDead, Grew, LuaHeap.Closed;
      OwnedWrite(body, rootgc, strt, openupval, uvhead, o, b);
      PlainWrite(body, marked, fixed, mainthread, o, b);
      NoneDeadMarking(body, marked, currentwhite, gray, grayagain, {}, body.Keys, body.Keys);
      AllAliveFacts(body, marked, currentwhite, o, Refs(body[o := b], o), ValueIds(v), Roots());
      AllAliveFacts(body, marked, currentwhite, o, ValueIds(v), ValueIds(v), Roots());
      AliveFacts(body, marked, currentwhite, gray, grayagain, body.Keys, body.Keys, Roots());
      StoreForward(o, b, v);
      KeptMarked(old(marked), marked, {mainthread, registry});
      MarkingClosed(body, marked, currentwhite, gray, grayagain, {}, body.Keys, body.Keys);
      MarkingAlive(body, marked, currentwhite, gray, grayagain, body.Keys, body.Keys, Roots());
      MarkingFacts(body, marked, currentwhite, gray, grayagain, {}, body.Keys, body.Keys);
    }

    /** No barrier is needed: what is black holds nothing white. */
    lemma NothingWhite(o: Id, b: Body, v: Value)
      requires Inv() && o in body && Plain(body[o]) && Plain(b)
      requires Refs(body[o := b], o) <= Refs(body, o) + ValueIds(v) && ValueIds(v) <= body.Keys
      requires !(v.Ref? && v.id in marked && White(marked[v.id]) && marked[o] == Black)
      ensures gcstate == Propagate && marked[o] == Black ==> AllMarked(marked, Refs(body[o := b], o))
    {
      hide Refs, AllMarked, Marking, Owned, Alive, OpenNotBlack, KindsOk, Prefix, Buckets;
      if gcstate == Propagate && marked[o] == Black {
        TricolourAt(body, marked, currentwhite, gray, grayagain, body.Keys, body.Keys, o);
        NotMarked(marked, v);
        MarkedSubset(marked, Refs(body[o := b], o), Refs(body, o), ValueIds(v));
      }
    }

    /** A store of `v` (a value, a key or a metatable) into a table, with
        `luaC_barriert`/`luaC_objbarriert` and so `luaC_barrierback`. */
    method SetTable(t: Id, refs: seq<Id>, v: Value)
      requires Inv() && AllReachable({t}) && AllReachable(ValueIds(v))
      requires t in body && body[t].Tab? && Refs(body[t := Tab(refs)], t) <= Refs(body, t) + ValueIds(v)
      modifies `body, `marked, `grayagain
      ensures Inv() && body == old(body)[t := Tab(refs)]
    {
      hide Inv, Reachable, Refs, AllAlive, AllMarked, AllReachable;
      InvFacts();
      AllReachableAlive(ValueIds(v));
      if v.Ref? && v.id in marked && White(marked[v.id]) && marked[t] == Black {
        if gcstate == Propagate {
          StoreBack(t, refs, v);
        } else {
          Store(t, Tab(refs), ValueIds(v));
          Recolour(t, Gray);
          PushGrayAgain(t);
        }
      } else {
        NothingWhite(t, Tab(refs), v);
        Store(t, Tab(refs), ValueIds(v));
      }
    }

    /** Outside marking the gray lists are not looked at again. */
    method PushGrayAgain(t: Id)
      requires Inv() && gcstate != Propagate
      modifies `grayagain
      ensures Inv()
    {
      hide Owned, Alive, OpenNotBlack, KindsOk, Prefix, Buckets;
      grayagain := [t] + grayagain;
    }

    /** `luaC_barrierback`: a black table is gray again, to be traversed by `atomic`. */
    method BarrierBack(t: Id)
      requires MarkInv({t}, body.Keys, body.Keys) && AllMarked(marked, {mainthread, registry})
      requires t in body && body[t].Tab? && t in marked && marked[t] == Black
      modifies `marked, `grayagain
      ensures marked == old(marked)[t := Gray] && grayagain == [t] + old(grayagain)
      ensures MarkInv({}, body.Keys, body.Keys) && AllMarked(marked, {mainthread, registry})
    {
      hide Marking, AllMarked, Kept;
      MarkingBack(body, marked, currentwhite, gray, grayagain, t);
      KeptOne(marked, t, Gray);
      KeptMarked(marked, marked[t := Gray], {mainthread, registry});
      marked := marked[t := Gray];
      grayagain := [t] + grayagain;
    }

    method StoreBack(t: Id, refs: seq<Id>, v: Value)
      requires Inv() && t in body && body[t].Tab?
      requires Refs(body[t := Tab(refs)], t) <= Refs(body, t) + ValueIds(v)
      requires AllAlive(body, marked, OtherWhite(currentwhite), ValueIds(v))
      requires gcstate == Propagate && t in marked && marked[t] == Black
      modifies `body, `marked, `grayagain
      ensures Inv() && body == old(body)[t := Tab(refs)]
    {
      hide Marking, Owned, Alive, OpenNotBlack, KindsOk, Prefix, Buckets, Ids, Refs, AllMarked, AllAlive, NoneDead, LuaHeap.Closed,
        Grew, Kept;
      var b := Tab(refs);
      OwnedWrite(body, rootgc, strt, openupval, uvhead, t, b);
      PlainWrite(body, marked, fixed, mainthread, t, b);
      NoneDeadMarking(body, marked, currentwhite, gray, grayagain, {}, body.Keys, body.Keys);
      AllAliveFacts(body, marked, currentwhite, t, Refs(body[t := b], t), ValueIds(v), Roots());
      AliveFacts(body, marked, currentwhite, gray, grayagain, body.Keys, body.Keys, Roots());
      MarkingWritePending(body, marked, currentwhite, gray, grayagain, t, b);
      assert body[t := b].Keys == body.Keys;
      body := body[t := b];
      BarrierBack(t);
      MarkingClosed(body, marked, currentwhite, gray, grayagain, {}, body.Keys, body.Keys);
      MarkingAlive(body, marked, currentwhite, gray, grayagain, body.Keys, body.Keys, Roots());
      MarkingFacts(body, marked, currentwhite, gray, grayagain, {}, body.Keys, body.Keys);
    }

    /** Stores into stack slots (and the table of globals) of a thread, pushes
        and pops: threads are never black, so there is no barrier. */
    method SetStack(t: Id, stack: seq<Value>, gt: Id, ghost extra: set<Id>)
      requires Inv() && AllReachable(extra) && StackStore(body, t, stack, gt, extra) && t in openupval
      requires forall u :: u in openupval[t] && u in body && body[u].OpenUpval? ==> body[u].level < |stack|
      modifies `body
      ensures Inv() && body == old(body)[t := Thread(stack, gt)]
    {
      hide Inv, Reachable, StackStore, AllAlive, AllReachable;
      AllReachableAlive(extra);
      StoreStack(t, stack, gt, extra);
    }

    method StoreStack(t: Id, stack: seq<Value>, gt: Id, ghost extra: set<Id>)
      requires Inv() && AllAlive(body, marked, OtherWhite(currentwhite), extra) && extra <= body.Keys
      requires StackStore(body, t, stack, gt, extra) && t in openupval
      requires forall u :: u in openupval[t] && u in body && body[u].OpenUpval? ==> body[u].level < |stack|
      modifies `body
      ensures Inv() && body == old(body)[t := Thread(stack, gt)]
    {
      hide Marking, Owned, Alive, OpenNotBlack, KindsOk, Prefix, Buckets, Ids, Refs, AllMarked, AllAlive, StackStore;
      StackStoreThread(body, t, stack, gt, extra);
      OwnedStack(body, rootgc, strt, openupval, uvhead, t, stack, gt);
      AliveStack(body, marked, OtherWhite(currentwhite), Roots(), t, stack, gt, extra);
      StackKinds(body, marked, fixed, mainthread, t, stack, gt);
      if gcstate == Propagate {
        MarkingStack(body, marked, currentwhite, gray, grayagain, t, stack, gt, extra);
      }
      assert body[t := Thread(stack, gt)].Keys == body.Keys;
      body := body[t := Thread(stack, gt)];
    }

    /** `luaC_link` and, for userdata, `luaS_newudata`: a new white object at
        place `p` of the root list. */
    method Link(o: Id, b: Body, p: nat)
      requires Inv() && o !in body && (Plain(b) || b.Thread?) && p <= |rootgc| && White(currentwhite)
      requires AllAlive(body, marked, OtherWhite(currentwhite), Refs(body[o := b], o)) && Refs(body[o := b], o) <= body.Keys
      modifies `body, `marked, `rootgc, `sweepgc, `openupval
      ensures Inv() && body == old(body)[o := b] && marked == old(marked)[o := currentwhite]
    {
      hide Consistent, Refs, AllAlive, InsertAt, Shifted, WithList;
      ConsistentLinked(gcstate, body, marked, currentwhite, fixed, gray, grayagain, mainthread, registry, running, Roots(),
                       sweepgc, rootgc, openupval, uvhead, sweepstrgc, strt, o, b, p);
      openupval := WithList(openupval, o, b);
      sweepgc := Shifted(sweepgc, p);
      rootgc := InsertAt(rootgc, p, o);
      body := body[o := b];
      marked := marked[o := currentwhite];
    }

    /** The running thread gets `o` on top of its stack. */
    method Push(o: Id)
      requires Inv() && o in body && marked[o] != OtherWhite(currentwhite)
      modifies `body
      ensures Inv() && running in old(body) && old(body)[running].Thread?
      ensures body == old(body)[running := Thread(old(body)[running].stack + [Ref(o)], old(body)[running].gt)]
    {
      hide Marking, Owned, Alive, OpenNotBlack, KindsOk, Prefix, Buckets, Ids, Refs, AllMarked, AllWhite;
      var stack := body[running].stack + [Ref(o)];
      OwnedMembers(body, rootgc, strt, openupval, uvhead, {});
      OwnedLevels(body, rootgc, strt, openupval, uvhead, running);
      StoreStack(running, stack, body[running].gt, {o});
    }

    /** A new closure, table, prototype, userdata, closed upvalue or thread,
        pushed on the stack of the running thread.  Userdata are linked after
        the main thread, everything else in front. */
    method NewObject(o: Id, b: Body)
      requires Inv() && o !in body && (Plain(b) || b.Thread?) && AllReachable(Refs(body[o := b], o))
      modifies `body, `marked, `rootgc, `sweepgc, `openupval
      ensures Inv() && o in body && Reachable(body, Roots(), o)
      ensures running in old(body) && old(body)[running].Thread?
      ensures body == old(body)[o := b][running := Thread(old(body)[running].stack + [Ref(o)], old(body)[running].gt)]
    {
      hide Reachable, AllReachable, Owned, Alive, KindsOk, OpenNotBlack, Marking, Prefix, Buckets, AllWhite, Refs, AllAlive;
      AllReachableAlive(Refs(body[o := b], o));
      var p := if b.Udata? then AfterMain() else 0;
      Link(o, b, p);
      Push(o);
      PushReachable(old(body), o, b);
    }

    function AfterMain(): (p: nat)
      reads this
      ensures p <= |rootgc|
    {
      var i := IndexOf(rootgc, mainthread);
      if i < |rootgc| then i + 1 else |rootgc|
    }

    lemma PushReachable(h: Heap, o: Id, b: Body)
      requires Inv() && running in body && body[running].Thread? && Ref(o) in body[running].stack
      ensures Reachable(body, Roots(), o)
    {
      RefsOf(body, running);
      RootsReachable(body, Roots(), running);
      assert o in StackIds(body[running].stack);
      ReachableStep(body, Roots(), running, o);
    }

    /** A dead string or open upvalue that is found again becomes white. */
    method Resurrect(o: Id)
      requires Inv() && o in body && marked[o] == OtherWhite(currentwhite)
      requires AllAlive(body, marked, OtherWhite(currentwhite), Refs(body, o))
      modifies `marked
      ensures Inv() && marked == old(marked)[o := currentwhite]
    {
      hide Marking, Owned, Alive, OpenNotBlack, KindsOk, Prefix, Buckets, Ids, Refs, AllMarked, AllAlive, AllWhite;
      InvFacts();
      AliveResurrect(body, marked, currentwhite, Roots(), o);
      ResurrectColours(body, marked, currentwhite, o);
      ColoursMore(marked, currentwhite, openupval, rootgc, sweepgc, strt, if gcstate == SweepString then sweepstrgc else |strt|, o);
      marked := marked[o := currentwhite];
    }

    /** `luaS_newlstr`: the interned string, found (and resurrected if dead) in
        its bucket or created there, pushed on the running thread's stack. */
    method InternString(o: Id, hash: nat, text: string) returns (s: Id)
      requires Inv() && o !in body
      modifies `body, `marked, `strt
      ensures Inv() && s in body && body[s] == Str(hash, text) && Reachable(body, Roots(), s)
      ensures forall x :: x in body && body[x] == Str(hash, text) ==> x == s
      ensures if s in old(body) then Pushed(old(body), body, running, s)
              else s == o && Pushed(old(body)[o := Str(hash, text)], body, running, o)
    {
      hide Inv, Reachable, Owned, Alive, OpenNotBlack, KindsOk, Marking, Prefix, Buckets, AllWhite, Refs, AllAlive, Pushed;
      var found;
      found, s := FindString(hash, text);
      if found {
        InvFacts();
        if marked[s] == OtherWhite(currentwhite) {
          StringRefs(body, s);
          AllAliveNone(body, marked, OtherWhite(currentwhite));
          Resurrect(s);
        }
      } else {
        s := o;
        NewString(o, hash, text);
      }
      InvFacts();
      PushString(s);
      OnlyString(s);
    }

    lemma OnlyString(s: Id)
      requires Inv() && s in body && body[s].Str?
      ensures forall x :: x in body && body[x] == body[s] ==> x == s
    {
      hide InPhase, Owned, Alive, OpenNotBlack;
    }

    /** `luaS_fix`: the string is never collected. */
    method Fix(s: Id)
      requires Inv() && s in body && body[s].Str?
      modifies `fixed
      ensures Inv() && fixed == old(fixed) + {s}
    {
      hide InPhase, Owned, Alive, OpenNotBlack, Interned;
      fixed := fixed + {s};
    }

    method PushString(s: Id)
      requires Inv() && s in body && body[s].Str? && s in marked && marked[s] != OtherWhite(currentwhite)
      modifies `body
      ensures Inv() && s in body && body[s] == old(body)[s] && Reachable(body, Roots(), s)
      ensures Pushed(old(body), body, running, s)
    {
      hide Reachable, AllReachable, Owned, Alive, KindsOk, OpenNotBlack, Marking, Prefix, Buckets, AllWhite, Refs, AllAlive;
      Push(s);
      PushReachable(old(body), s, body[s]);
    }

    method FindString(hash: nat, text: string) returns (found: bool, s: Id)
      requires Inv()
      ensures found ==> s in body && body[s] == Str(hash, text) && s in marked
      ensures !found ==> forall o :: o in body ==> body[o] != Str(hash, text)
    {
      hide Alive, OpenNotBlack, KindsOk, Marking, Prefix, Buckets, AllWhite;
      OwnedBuckets(body, rootgc, strt, openupval, uvhead, {});
      var b := hash % |strt|;
      s := 0;
      for i := 0 to |strt[b]|
        invariant forall j :: 0 <= j < i ==> strt[b][j] in body && body[strt[b][j]] != Str(hash, text)
      {
        OwnedString(body, rootgc, strt, openupval, uvhead, {}, b, i);
        if body[strt[b][i]] == Str(hash, text) {
          return true, strt[b][i];
        }
      }
      found := false;
    }

    method NewString(o: Id, hash: nat, text: string)
      requires Inv() && o !in body && forall x :: x in body ==> body[x] != Str(hash, text)
      modifies `body, `marked, `strt
      ensures Inv() && o in body && body == old(body)[o := Str(hash, text)]
      ensures o in marked && White(currentwhite) && marked[o] == currentwhite
    {
      hide InPhase, Owned, Alive, OpenNotBlack, KindsOk, Ids, Refs, AllAlive;
      var b := Str(hash, text);
      OwnedNewString(body, rootgc, strt, openupval, uvhead, o, b);
      StringRefs(body[o := b], o);
      AllAliveNone(body, marked, OtherWhite(currentwhite));
      AliveNew(body, marked, currentwhite, Roots(), o, b);
      KindsNew(body, marked, currentwhite, fixed, mainthread, o, b);
      InPhaseString(gcstate, body, marked, currentwhite, gray, grayagain, mainthread, registry,
                    sweepgc, rootgc, openupval, sweepstrgc, strt, o, b);
      body := body[o := b];
      marked := marked[o := currentwhite];
      strt := strt[hash % |strt| := [o] + strt[hash % |strt|]];
    }

    /** `luaF_findupval` on the running thread. */
    method FindUpval(level: nat, nu: Id) returns (u: Id)
      requires Inv() && nu !in body
      requires running in body && body[running].Thread? && level < |body[running].stack|
      modifies `body, `marked, `openupval, `uvhead
      ensures Inv() && White(currentwhite)
      ensures u in body && body[u] == OpenUpval(running, level) && u in marked && marked[u] != OtherWhite(currentwhite)
      ensures body == old(body) || (u == nu && body == old(body)[nu := OpenUpval(running, level)])
      ensures forall x :: x in body && body[x] == OpenUpval(running, level) ==> x == u
      ensures forall o :: o in old(marked) && old(marked)[o] != OtherWhite(currentwhite) ==>
                o in marked && marked[o] != OtherWhite(currentwhite)
    {
      hide Inv, Owned, Alive, OpenNotBlack, KindsOk, Marking, Prefix, Buckets, AllWhite, Refs, AllAlive;
      var i, found := LocateUpval(level);
      InvFacts();
      if found {
        u := openupval[running][i];
        if marked[u] == OtherWhite(currentwhite) {
          UpvalAlive(u);
          Resurrect(u);
        }
      } else {
        u := nu;
        InsertUpval(level, nu, i);
      }
      OnlyUpval(u);
    }

    lemma OnlyUpval(u: Id)
      requires Inv() && u in body && body[u].OpenUpval?
      ensures forall x :: x in body && body[x] == body[u] ==> x == u
    {
      hide InPhase, Owned, Alive, OpenNotBlack, KindsOk;
      forall x | x in body && body[x] == body[u]
        ensures x == u
      {
        OneUpval(body, rootgc, strt, openupval, uvhead, {}, u, x);
      }
    }

    lemma UpvalAlive(u: Id)
      requires Inv() && u in body && body[u].OpenUpval? && body[u].thread == running
      ensures AllAlive(body, marked, OtherWhite(currentwhite), Refs(body, u))
    {
      hide Refs, AllAlive, Owned, Marking, Prefix, Buckets, OpenNotBlack, KindsOk;
      SlotAlive(body, marked, OtherWhite(currentwhite), Roots(), running, body[u].level);
      RefsOf(body, u);
    }

    /** The place in the list of open upvalues where `level` is or belongs. */
    method LocateUpval(level: nat) returns (i: nat, found: bool)
      requires Inv()
      ensures running in openupval && Above(body, openupval[running], i, level)
      ensures found ==> i < |openupval[running]| && openupval[running][i] in body
      ensures found ==> body[openupval[running][i]] == OpenUpval(running, level)
      ensures !found ==> BelowAt(body, openupval[running], i, level)
    {
      hide Owned, Alive, OpenNotBlack, KindsOk, InPhase;
      OwnedMembers(body, rootgc, strt, openupval, uvhead, {});
      i := 0;
      while i < |openupval[running]|
        invariant Above(body, openupval[running], i, level)
      {
        OwnedUpval(body, rootgc, strt, openupval, uvhead, {}, running, i);
        if body[openupval[running][i]].level < level {
          return i, false;
        }
        if body[openupval[running][i]].level == level {
          return i, true;
        }
        i := i + 1;
      }
      found := false;
    }

    method InsertUpval(level: nat, nu: Id, i: nat)
      requires Inv() && nu !in body && running in openupval
      requires Above(body, openupval[running], i, level) && BelowAt(body, openupval[running], i, level)
      requires running in body && body[running].Thread? && level < |body[running].stack|
      modifies `body, `marked, `openupval, `uvhead
      ensures Inv() && body == old(body)[nu := OpenUpval(running, level)]
      ensures White(currentwhite) && marked == old(marked)[nu := currentwhite] && old(marked).Keys == old(body).Keys
    {
      hide InPhase, Owned, Alive, OpenNotBlack, KindsOk, Ids, Refs, AllAlive, InsertAt, BelowAt;
      var b := OpenUpval(running, level);
      OwnedOpenList(body, rootgc, strt, openupval, uvhead, running);
      OpenListInsert(body, running, openupval[running], i, nu, level);
      OwnedNewUpval(body, rootgc, strt, openupval, uvhead, running, i, nu, level);
      RunningAlive();
      SlotAlive(body, marked, OtherWhite(currentwhite), Roots(), running, level);
      NewUpvalRefs(body, nu, running, level);
      AliveNew(body, marked, currentwhite, Roots(), nu, b);
      KindsNew(body, marked, currentwhite, fixed, mainthread, nu, b);
      InPhaseUpval(gcstate, body, marked, currentwhite, gray, grayagain, mainthread, registry,
                   sweepgc, rootgc, openupval, sweepstrgc, strt, running, i, nu, b);
      body := body[nu := b];
      marked := marked[nu := currentwhite];
      openupval := openupval[running := InsertAt(openupval[running], i, nu)];
      uvhead := [nu] + uvhead;
    }

    lemma RunningAlive()
      requires Inv()
      ensures running in marked && marked[running] != OtherWhite(currentwhite)
    {
    }

    /** `OP_CLOSURE`: a closure over the slots `levels` of the running thread
        and the objects `refs`; `ids` are the addresses for new upvalues. */
    method NewClosure(o: Id, refs: seq<Id>, levels: seq<nat>, ids: seq<Id>) returns (ups: seq<Id>)
      requires Inv() && o !in body && o !in ids && AllReachable(Ids(refs))
      requires running in body && body[running].Thread? && forall l :: l in levels ==> l < |body[running].stack|
      requires |ids| == |levels| && Distinct(ids) && forall i :: i in ids ==> i !in body
      modifies `body, `marked, `rootgc, `sweepgc, `openupval, `uvhead
      ensures Inv() && Reachable(body, Roots(), o) && ClosureMade(old(body), body, running, o, refs, levels, ups)
    {
      hide Inv, Reachable, AllReachable, Refs, AllAlive, ClosureMade, Pushed, Distinct, Ids;
      InvFacts();
      AllReachableAlive(Ids(refs));
      ups := Capture(levels, ids, Ids(refs));
      InvFacts();
      FuncRefs(body, o, refs + ups);
      AllAliveBoth(body, marked, OtherWhite(currentwhite), refs, ups);
      ghost var k := body;
      LinkAndPush(o, Func(refs + ups));
      ClosureIs(old(body), k, body, running, o, refs, levels, ups);
    }

    method LinkAndPush(o: Id, b: Body)
      requires Inv() && o !in body && b.Func?
      requires White(currentwhite) && AllAlive(body, marked, OtherWhite(currentwhite), Refs(body[o := b], o))
      requires Refs(body[o := b], o) <= body.Keys
      modifies `body, `marked, `rootgc, `sweepgc, `openupval
      ensures Inv() && o in body && body[o] == b && Reachable(body, Roots(), o)
      ensures Pushed(old(body)[o := b], body, running, o)
    {
      hide Reachable, Owned, Alive, KindsOk, OpenNotBlack, InPhase, Refs, AllAlive;
      Link(o, b, 0);
      Push(o);
      PushReachable(old(body), o, b);
    }

    method Capture(levels: seq<nat>, ids: seq<Id>, ghost keep: set<Id>) returns (ups: seq<Id>)
      requires Inv() && running in body && body[running].Thread? && forall l :: l in levels ==> l < |body[running].stack|
      requires |ids| == |levels| && Distinct(ids) && forall i :: i in ids ==> i !in body
      requires White(currentwhite) && AllAlive(body, marked, OtherWhite(currentwhite), keep)
      modifies `body, `marked, `openupval, `uvhead
      ensures Inv() && |ups| == |levels| && White(currentwhite)
      ensures forall i :: 0 <= i < |levels| ==> ups[i] in body && body[ups[i]] == OpenUpval(running, levels[i])
      ensures AllAlive(body, marked, OtherWhite(currentwhite), keep)
      ensures AllAlive(body, marked, OtherWhite(currentwhite), Ids(ups))
      ensures forall x :: x in body ==> x in old(body) || (x in ids && x in ups)
      ensures forall x :: x in old(body) ==> x in body && body[x] == old(body)[x]
    {
      hide Inv, Distinct, AllAlive, Ids;
      ups := [];
      AllAliveNone(body, marked, OtherWhite(currentwhite));
      IdsNone();
      for i := 0 to |levels|
        invariant Inv() && |ups| == i && White(currentwhite)
        invariant running in body && body[running] == old(body)[running]
        invariant forall j :: i <= j < |ids| ==> ids[j] !in body
        invariant forall j :: 0 <= j < i ==> ups[j] in body && body[ups[j]] == OpenUpval(running, levels[j])
        invariant AllAlive(body, marked, OtherWhite(currentwhite), keep)
        invariant AllAlive(body, marked, OtherWhite(currentwhite), Ids(ups))
        invariant forall x :: x in body ==> x in old(body) || (x in ids && x in ups)
        invariant forall x :: x in old(body) ==> x in body && body[x] == old(body)[x]
      {
        DistinctAt(ids, i);
        assert levels[i] in levels;
        var u := CaptureOne(levels[i], ids[i], keep, ups);
        ups := ups + [u];
      }
    }

    method CaptureOne(level: nat, id: Id, ghost keep: set<Id>, ghost ups: seq<Id>) returns (u: Id)
      requires Inv() && id !in body && running in body && body[running].Thread? && level < |body[running].stack|
      requires White(currentwhite) && AllAlive(body, marked, OtherWhite(currentwhite), keep)
      requires AllAlive(body, marked, OtherWhite(currentwhite), Ids(ups))
      modifies `body, `marked, `openupval, `uvhead
      ensures Inv() && White(currentwhite) && u in body && body[u] == OpenUpval(running, level)
      ensures forall x :: x in old(body) ==> x in body && body[x] == old(body)[x]
      ensures forall x :: x in body ==> x in old(body) || (x == id && x == u)
      ensures AllAlive(body, marked, OtherWhite(currentwhite), keep)
      ensures AllAlive(body, marked, OtherWhite(currentwhite), Ids(ups + [u]))
    {
      hide Inv, AllAlive, Ids;
      u := FindUpval(level, id);
      AllAliveGrew(old(body), old(marked), body, marked, OtherWhite(currentwhite), keep);
      AllAliveGrew(old(body), old(marked), body, marked, OtherWhite(currentwhite), Ids(ups));
      AllAliveOne(body, marked, OtherWhite(currentwhite), ups, u);
    }

    /** `OP_SETUPVAL`: an open upvalue is never black, so the store into its
        slot needs no barrier; a closed one gets the forward barrier. */
    method SetUpval(u: Id, v: Value)
      requires Inv() && AllReachable({u}) && AllReachable(ValueIds(v))
      requires u in body && (body[u].OpenUpval? || body[u].ClosedUpval?)
      modifies `body, `marked, `gray
      ensures Inv() && u in body && Refs(body, u) == ValueIds(v)
      ensures old(body)[u].ClosedUpval? ==> body == old(body)[u := ClosedUpval(v)]
      ensures old(body)[u].OpenUpval? ==> marked == old(marked) && SlotStored(old(body), body, old(body)[u].thread, old(body)[u].level, v)
    {
      hide Inv, Reachable, AllReachable, AllAlive;
      if body[u].OpenUpval? {
        var t, level := body[u].thread, body[u].level;
        UpvalSlot(u);
        var stack := body[t].stack[level := v];
        SetStack(t, stack, body[t].gt, ValueIds(v));
      } else {
        SetObject(u, ClosedUpval(v), v);
      }
    }

    lemma UpvalSlot(u: Id)
      requires Inv() && u in body && body[u].OpenUpval?
      ensures var t := body[u].thread;
              && t in openupval && t in body && body[t].Thread? && body[u].level < |body[t].stack| && u != t
              && (forall x :: x in openupval[t] && x in body && body[x].OpenUpval? ==> body[x].level < |body[t].stack|)
    {
      hide Alive, OpenNotBlack, KindsOk, InPhase;
      assert OpenList(body, body[u].thread, openupval[body[u].thread]);
    }

    /** `luaF_close` on the running thread, as blocks and functions end. */
    method CloseUpvals(level: nat)
      requires Inv()
      modifies `body, `marked, `openupval, `uvhead, `rootgc, `sweepgc, `gray
      ensures Inv() && ClosedDown(old(body), old(marked), body, running, level, OtherWhite(currentwhite), [])
      ensures running in openupval && forall u :: u in openupval[running] ==> u in body && body[u].OpenUpval? && body[u].level < level
    {
      hide InPhase, Owned, Alive, OpenNotBlack, KindsOk, Swept, Prefix;
      OwnedMembers(body, rootgc, strt, openupval, uvhead, {});
      if gcstate == Propagate {
        CloseMarkingPhase(level);
      } else {
        Close(running, level, {});
        SweptKinds(old(body), old(marked), body, marked, currentwhite, fixed, mainthread);
        SweptAlive(old(body), old(marked), body, marked, currentwhite, fixed, Roots(), mainthread);
        SweptThreadKept(old(body), old(marked), body, marked, currentwhite, fixed, Roots(), running);
        InPhaseSwept(gcstate, old(body), old(marked), body, marked, currentwhite, fixed, gray, grayagain, mainthread, registry,
                     old(sweepgc), old(rootgc), old(openupval), sweepgc, rootgc, openupval, sweepstrgc, strt, uvhead);
      }
    }

    method CloseMarkingPhase(level: nat)
      requires Inv() && gcstate == Propagate
      modifies `body, `marked, `openupval, `uvhead, `rootgc, `sweepgc, `gray
      ensures Inv() && ClosedDown(old(body), old(marked), body, running, level, OtherWhite(currentwhite), [])
      ensures running in openupval && forall u :: u in openupval[running] ==> u in body && body[u].OpenUpval? && body[u].level < level
    {
      hide Inv, ClosedDown, NoneDead;
      InvOpen();
      InvDown(level);
      while openupval[running] != [] && body[openupval[running][0]].level >= level
        invariant Inv() && running in openupval
        invariant openupval[running] != [] ==> openupval[running][0] in body && body[openupval[running][0]].OpenUpval?
        invariant ClosedDown(old(body), old(marked), body, running, level, OtherWhite(currentwhite), openupval[running])
        decreases |uvhead|
      {
        CloseNextMarking(level, old(body), old(marked));
        InvOpen();
      }
      InvOpen();
      DownEnd(old(body), old(marked), body, running, level, OtherWhite(currentwhite), openupval[running]);
    }

    lemma InvDown(level: nat)
      requires Inv()
      ensures running in openupval && running in body && body[running].Thread? && White(currentwhite)
      ensures ClosedDown(body, marked, body, running, level, OtherWhite(currentwhite), openupval[running])
      ensures gcstate == Propagate ==> NoneDead(marked, OtherWhite(currentwhite))
      ensures OpenList(body, running, openupval[running]) && body.Keys == marked.Keys
    {
      hide InPhase, Owned, Alive, OpenNotBlack, KindsOk, ClosedDown, OpenList, NoneDead;
      InvFacts();
      OwnedMembers(body, rootgc, strt, openupval, uvhead, {});
      DownStart(body, marked, rootgc, strt, openupval, uvhead, {}, running, level, OtherWhite(currentwhite));
      OwnedOpen(body, rootgc, strt, openupval, uvhead, {}, running);
    }

    method CloseNextMarking(ghost level: nat, ghost h: Heap, ghost m: Marks)
      requires Inv() && gcstate == Propagate && running in openupval && openupval[running] != []
      requires openupval[running][0] in body && body[openupval[running][0]].OpenUpval? && body[openupval[running][0]].level >= level
      requires running in h && h[running].Thread? && h.Keys == m.Keys && NoneDead(m, OtherWhite(currentwhite))
      requires ClosedDown(h, m, body, running, level, OtherWhite(currentwhite), openupval[running])
      modifies `body, `marked, `openupval, `uvhead, `rootgc, `sweepgc, `gray
      ensures Inv() && running in openupval && |uvhead| < |old(uvhead)|
      ensures ClosedDown(h, m, body, running, level, OtherWhite(currentwhite), openupval[running])
    {
      hide Inv, ClosedDown, OpenList, ClosedOver, Slot, Cut;
      InvDown(level);
      ClosedDownKeys(h, m, body, running, level, OtherWhite(currentwhite), openupval[running]);
      CloseOneMarking();
      DownStep(h, m, old(body), old(marked), body, running, level, OtherWhite(currentwhite), old(openupval)[running]);
    }

    lemma InvOpen()
      requires Inv()
      ensures running in openupval
      ensures openupval[running] != [] ==> openupval[running][0] in body && body[openupval[running][0]].OpenUpval?
      ensures openupval[running] != [] ==> forall x :: x in openupval[running] ==>
                x in body && body[x].OpenUpval? && body[x].level <= body[openupval[running][0]].level
    {
      hide InPhase, Owned, Alive, OpenNotBlack, KindsOk;
      OwnedMembers(body, rootgc, strt, openupval, uvhead, {});
      if openupval[running] != [] {
        OpenFirst(body, rootgc, strt, openupval, uvhead, {}, marked, fixed, mainthread, running);
      }
    }

    method CloseOneMarking()
      requires Inv() && gcstate == Propagate && running in openupval && openupval[running] != []
      modifies `body, `marked, `openupval, `uvhead, `rootgc, `sweepgc, `gray
      ensures Inv() && running in openupval && |uvhead| < |old(uvhead)|
      ensures openupval == old(openupval)[running := Cut(old(openupval)[running], 0)]
      ensures var u := old(openupval)[running][0];
              && u in old(body) && old(body)[u].OpenUpval?
              && body == ClosedOver(old(body), u, Slot(old(body), running, old(body)[u].level))
    {
      hide Owned, Alive, OpenNotBlack, KindsOk, Marking, AllMarked, Kept, LuaHeap.Closed, Cut, ClosedOver;
      OwnedUpval(body, rootgc, strt, openupval, uvhead, {}, running, 0);
      var u := openupval[running][0];
      ghost var v := Slot(body, running, body[u].level);
      AliveClosedOver(body, marked, OtherWhite(currentwhite), Roots(), fixed, mainthread, u, v);
      ClosedOverKeys(body, u, v, running);
      AliveFacts(body, marked, currentwhite, gray, grayagain, body.Keys, body.Keys, Roots());
      CloseFirstMarking(running);
      KeptMarked(old(marked), marked, {mainthread, registry});
      MarkingClosed(body, marked, currentwhite, gray, grayagain, {}, body.Keys, body.Keys);
      MarkingAlive(body, marked, currentwhite, gray, grayagain, body.Keys, body.Keys, Roots());
      MarkingFacts(body, marked, currentwhite, gray, grayagain, {}, body.Keys, body.Keys);
    }

    /** Resuming a coroutine, or yielding: another reachable thread runs. */
    method SwitchThread(t: Id)
      requires Inv() && AllReachable({t}) && t in body && body[t].Thread?
      modifies `running
      ensures Inv() && running == t
    {
      hide InPhase, Owned, OpenNotBlack, KindsOk, AliveClosed, Reachable;
      AllReachableAlive({t});
      running := t;
    }

    /** `lua_setmetatable` on a basic type: no barrier, `atomic` marks `mt` again. */
    method SetBasicMetatables(tables: seq<Id>)
      requires Inv() && forall t :: t in tables ==> t in mt || AllReachable({t})
      modifies `mt
      ensures Inv() && mt == tables && forall t :: t in tables ==> Reachable(body, Roots(), t)
    {
      hide InPhase, Owned, OpenNotBlack, KindsOk, AliveClosed, Reachable;
      forall t | t in tables ensures t in body && t in marked && marked[t] != OtherWhite(currentwhite) {
        if t !in mt { AllReachableAlive({t}); }
      }
      mt := tables;
      forall t | t in tables
        ensures Reachable(body, Roots(), t)
      {
        assert t in Roots();
        RootsReachable(body, Roots(), t);
      }
    }
  }
}
