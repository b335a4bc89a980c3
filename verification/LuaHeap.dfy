/** The objects of a Lua 5.1.4 heap, their colours, and what reaches what.
    Nothing in this module changes state: the collector in `LuaCollector`
    owns the fields, and every invariant it keeps is a predicate from here. */
module LuaHeap {
  type Id = nat

  /** A `TValue`: only collectable values carry an object. */
  datatype Value = Scalar | Ref(id: Id)

  /** What an object holds, by `tt`.  `refs` lists the strong references of a
      userdata (metatable, environment), closure, table or prototype.  An open
      upvalue reads its value from a slot of a thread's stack. */
  datatype Body =
    | Str(hash: nat, text: string)
    | Udata(refs: seq<Id>)
    | Func(refs: seq<Id>)
    | Tab(refs: seq<Id>)
    | Proto(refs: seq<Id>)
    | Thread(stack: seq<Value>, gt: Id)
    | OpenUpval(thread: Id, level: nat)
    | ClosedUpval(value: Value)

  datatype Colour = White0 | White1 | Gray | Black

  datatype Phase = Pause | Propagate | SweepString | Sweep | Finalize

  type Heap = map<Id, Body>
  type Marks = map<Id, Colour>

  predicate White(c: Colour) { c.White0? || c.White1? }

  function OtherWhite(w: Colour): (o: Colour)
    requires White(w)
    ensures White(o) && o != w
  {
    if w.White0? then White1 else White0
  }

  ghost function ValueIds(v: Value): set<Id> {
    if v.Ref? then {v.id} else {}
  }

  /** The slot an open upvalue points into. */
  ghost function Slot(h: Heap, t: Id, level: nat): Value {
    if t in h && h[t].Thread? && level < |h[t].stack| then h[t].stack[level] else Scalar
  }

  ghost function Refs(h: Heap, o: Id): set<Id>
    requires o in h
  {
    match h[o]
    case Str(_, _) => {}
    case Udata(refs) => Ids(refs)
    case Func(refs) => Ids(refs)
    case Tab(refs) => Ids(refs)
    case Proto(refs) => Ids(refs)
    case Thread(stack, gt) => StackIds(stack) + {gt}
    case OpenUpval(t, level) => ValueIds(Slot(h, t, level))
    case ClosedUpval(v) => ValueIds(v)
  }

  ghost function StackIds(stack: seq<Value>): set<Id> {
    set v | v in stack && v.Ref? :: v.id
  }

  ghost function Ids(refs: seq<Id>): set<Id> {
    set r | r in refs
  }

  lemma RefsOf(h: Heap, o: Id)
    requires o in h
    ensures h[o].Udata? || h[o].Func? || h[o].Tab? || h[o].Proto? ==> Refs(h, o) == Ids(h[o].refs)
    ensures h[o].Thread? ==> Refs(h, o) == StackIds(h[o].stack) + {h[o].gt}
    ensures h[o].ClosedUpval? ==> Refs(h, o) == ValueIds(h[o].value)
    ensures h[o].OpenUpval? ==> Refs(h, o) == ValueIds(Slot(h, h[o].thread, h[o].level))
  {
  }

  predicate Points(v: Value, r: Id) { v.Ref? && v.id == r }

  /** What it is to be held by an object, kind by kind. */
  ghost predicate Holds(h: Heap, o: Id, r: Id)
    requires o in h
  {
    match h[o]
    case Str(_, _) => false
    case Udata(refs) => r in refs
    case Func(refs) => r in refs
    case Tab(refs) => r in refs
    case Proto(refs) => r in refs
    case Thread(stack, gt) => r == gt || exists i :: 0 <= i < |stack| && Points(stack[i], r)
    case OpenUpval(t, level) =>
      t in h && h[t].Thread? && level < |h[t].stack| && Points(h[t].stack[level], r)
    case ClosedUpval(v) => Points(v, r)
  }

  lemma RefsHold(h: Heap, o: Id)
    requires o in h
    ensures forall r :: r in Refs(h, o) <==> Holds(h, o, r)
  {
  }

  ghost predicate Closed(h: Heap, s: set<Id>) {
    forall o, r :: o in s && o in h && r in Refs(h, o) ==> r in s
  }

  /** Reachable from `roots`: a member of every set that holds the roots and
      everything its members refer to. */
  ghost predicate Reachable(h: Heap, roots: set<Id>, o: Id) {
    forall s: set<Id> :: roots <= s && Closed(h, s) ==> o in s
  }

  lemma RootsReachable(h: Heap, roots: set<Id>, o: Id)
    requires o in roots
    ensures Reachable(h, roots, o)
  {
  }

  lemma ReachableStep(h: Heap, roots: set<Id>, o: Id, r: Id)
    requires Reachable(h, roots, o) && o in h && r in Refs(h, o)
    ensures Reachable(h, roots, r)
  {
  }

  /** A chain of references, each element held by the one before it. */
  ghost predicate Path(h: Heap, p: seq<Id>) {
    && p != []
    && forall i :: 0 <= i < |p| - 1 ==> p[i] in h && p[i + 1] in Refs(h, p[i])
  }

  /** Whatever a chain of references leads to from a root is reachable. */
  lemma {:induction false} PathReachable(h: Heap, roots: set<Id>, p: seq<Id>)
    requires Path(h, p) && p[0] in roots
    ensures Reachable(h, roots, p[|p| - 1])
    decreases |p|
  {
    if |p| == 1 {
      RootsReachable(h, roots, p[0]);
    } else {
      var q := p[..|p| - 1];
      assert Path(h, q);
      PathReachable(h, roots, q);
      ReachableStep(h, roots, q[|q| - 1], p[|p| - 1]);
    }
  }

  ghost predicate PathTo(h: Heap, roots: set<Id>, p: seq<Id>, o: Id) {
    Path(h, p) && p[0] in roots && p[|p| - 1] == o
  }

  lemma PathExtend(h: Heap, roots: set<Id>, p: seq<Id>, o: Id, r: Id)
    requires PathTo(h, roots, p, o) && o in h && r in Refs(h, o)
    ensures PathTo(h, roots, p + [r], r)
  {
    hide Refs;
    var q := p + [r];
    forall i | 0 <= i < |q| - 1 ensures q[i] in h && q[i + 1] in Refs(h, q[i]) {
      if i < |p| - 1 { assert p[i] in h && p[i + 1] in Refs(h, p[i]); }
    }
  }

  ghost function Held(h: Heap): set<Id> {
    set x, r | x in h && r in Refs(h, x) :: r
  }

  /** And conversely: what is reachable ends a chain of references from a root. */
  lemma ReachablePath(h: Heap, roots: set<Id>, o: Id) returns (p: seq<Id>)
    requires Reachable(h, roots, o)
    ensures PathTo(h, roots, p, o)
  {
    hide Refs, Path, PathTo;
    var s := set x | x in roots + Held(h) && exists q :: PathTo(h, roots, q, x);
    forall r | r in roots ensures r in s { PathRoot(h, roots, r); }
    forall x, r | x in s && x in h && r in Refs(h, x) ensures r in s {
      var q :| PathTo(h, roots, q, x);
      PathExtend(h, roots, q, x, r);
      assert r in Held(h);
    }
    assert Closed(h, s);
    assert o in s;
    p :| PathTo(h, roots, p, o);
  }

  lemma PathRoot(h: Heap, roots: set<Id>, r: Id)
    requires r in roots
    ensures PathTo(h, roots, [r], r)
  {
  }

  // ----- Colour invariants -----

  ghost function Whites(m: Marks): set<Id> {
    set o | o in m && White(m[o])
  }

  ghost predicate NoneDead(m: Marks, otherWhite: Colour) {
    forall o :: o in m ==> m[o] != otherWhite
  }

  ghost predicate AllWhite(m: Marks, w: Colour) {
    forall o :: o in m ==> m[o] == w
  }

  /** Whatever is not dead is in the heap and holds nothing dead. */
  ghost predicate AliveClosed(h: Heap, m: Marks, otherWhite: Colour) {
    forall o, r :: o in h && o in m && m[o] != otherWhite && r in Refs(h, o) ==>
      r in h && r in m && m[r] != otherWhite
  }

  /** No black object holds a white one, except those still being traversed. */
  ghost predicate Tricolour(h: Heap, m: Marks, pending: set<Id>) {
    forall o, r :: o in h && o in m && m[o] == Black && o !in pending && r in Refs(h, o) ==>
      r in m && !White(m[r])
  }

  predicate Listed(b: Body) { b.Func? || b.Tab? || b.Proto? || b.Thread? }

  ghost predicate Distinct(s: seq<Id>) {
    forall i, j :: 0 <= i < j < |s| ==> s[i] != s[j]
  }

  /** The gray lists hold gray objects once each; a gray object that is on no
      list is a string, an open upvalue, or still being traversed; strings,
      threads and open upvalues are never black. */
  ghost predicate GrayLists(h: Heap, m: Marks, gray: seq<Id>, again: seq<Id>, pending: set<Id>) {
    && (forall o :: o in gray ==> o in h && o in m && m[o] == Gray && Listed(h[o]))
    && (forall o :: o in again ==> o in h && o in m && m[o] == Gray && (h[o].Tab? || h[o].Thread?))
    && Distinct(gray) && Distinct(again)
    && (forall o :: o in gray ==> o !in again)
    && (forall o :: o in h && o in m && m[o] == Gray && o !in pending ==>
          h[o].Str? || h[o].OpenUpval? || o in gray || o in again)
    && (forall o :: o in h && o in m && m[o] == Black && o !in pending ==>
          !h[o].Str? && !h[o].Thread? && !h[o].OpenUpval?)
  }

  /** Every gray open upvalue, and every gray thread that is not waiting to be
      traversed, holds nothing white, except those in `dirty`. */
  ghost predicate Clean(h: Heap, m: Marks, gray: seq<Id>, dirty: set<Id>) {
    forall o, r ::
      (o in h && o in m && m[o] == Gray && o !in dirty && r in Refs(h, o)
       && (h[o].OpenUpval? || (h[o].Thread? && o !in gray)))
      ==> r in m && !White(m[r])
  }

  /** What holds while marking: `pending` are the objects whose traversal is
      under way, `live` is a closed set that nothing non-white leaves, and
      `dirty` are the objects whose referents may have been missed. */
  ghost predicate Marking(h: Heap, m: Marks, w: Colour, gray: seq<Id>, again: seq<Id>,
                          pending: set<Id>, live: set<Id>, dirty: set<Id>)
  {
    && h.Keys == m.Keys
    && White(w) && NoneDead(m, OtherWhite(w))
    && Closed(h, live) && live <= h.Keys
    && (forall o :: o in m && !White(m[o]) ==> o in live)
    && Tricolour(h, m, pending)
    && GrayLists(h, m, gray, again, pending)
    && Clean(h, m, gray, pending + dirty)
  }

  lemma MarkingFacts(h: Heap, m: Marks, w: Colour, gray: seq<Id>, again: seq<Id>,
                     pending: set<Id>, live: set<Id>, dirty: set<Id>)
    requires Marking(h, m, w, gray, again, pending, live, dirty)
    ensures h.Keys == m.Keys && live <= h.Keys && White(w)
    ensures forall o :: o in live ==> Refs(h, o) <= live
  {
  }

  lemma StartMark(h: Heap, m: Marks, w: Colour, gray: seq<Id>, again: seq<Id>,
                  pending: set<Id>, live: set<Id>, dirty: set<Id>, o: Id, c: Colour)
    requires Marking(h, m, w, gray, again, pending, live, dirty)
    requires o in live && White(m[o]) && !White(c)
    ensures Marking(h, m[o := c], w, gray, again, pending + {o}, live, dirty)
    ensures Whites(m[o := c]) == Whites(m) - {o}
    ensures o !in gray && o !in again
  {
  }

  lemma EndUnlisted(h: Heap, m: Marks, w: Colour, gray: seq<Id>, again: seq<Id>,
                  pending: set<Id>, live: set<Id>, dirty: set<Id>, o: Id)
    requires Marking(h, m, w, gray, again, pending + {o}, live, dirty)
    requires o in m && m[o] == Gray && (h[o].Str? || h[o].OpenUpval?)
    requires AllMarked(m, Refs(h, o))
    ensures Marking(h, m, w, gray, again, pending, live, dirty)
  {
  }

  lemma EndBlack(h: Heap, m: Marks, w: Colour, gray: seq<Id>, again: seq<Id>,
                  pending: set<Id>, live: set<Id>, dirty: set<Id>, o: Id)
    requires Marking(h, m, w, gray, again, pending + {o}, live, dirty)
    requires o in m && !White(m[o]) && o !in gray && o !in again
    requires !h[o].Str? && !h[o].OpenUpval? && !h[o].Thread?
    requires AllMarked(m, Refs(h, o))
    ensures Marking(h, m[o := Black], w, gray, again, pending, live, dirty)
    ensures Whites(m[o := Black]) == Whites(m)
  {
    hide Tricolour, GrayLists, Clean, Refs, Closed;
    BlackTricolour(h, m, pending, o);
    BlackLists(h, m, gray, again, pending, o);
    BlackClean(h, m, gray, pending, dirty, o);
  }

  lemma BlackTricolour(h: Heap, m: Marks, pending: set<Id>, o: Id)
    requires h.Keys == m.Keys && Tricolour(h, m, pending + {o}) && o in m && !White(m[o]) && AllMarked(m, Refs(h, o))
    ensures Tricolour(h, m[o := Black], pending)
  {
    hide Refs;
  }

  lemma BlackLists(h: Heap, m: Marks, gray: seq<Id>, again: seq<Id>, pending: set<Id>, o: Id)
    requires h.Keys == m.Keys && GrayLists(h, m, gray, again, pending + {o}) && o in m && o !in gray && o !in again
    requires !h[o].Str? && !h[o].OpenUpval? && !h[o].Thread?
    ensures GrayLists(h, m[o := Black], gray, again, pending)
  {
    hide Distinct;
  }

  lemma BlackClean(h: Heap, m: Marks, gray: seq<Id>, pending: set<Id>, dirty: set<Id>, o: Id)
    requires h.Keys == m.Keys && Clean(h, m, gray, (pending + {o}) + dirty) && o in m && !White(m[o])
    ensures Clean(h, m[o := Black], gray, pending + dirty)
  {
    hide Refs;
  }

  lemma EndListed(h: Heap, m: Marks, w: Colour, gray: seq<Id>, again: seq<Id>,
                  pending: set<Id>, live: set<Id>, dirty: set<Id>, o: Id)
    requires Marking(h, m, w, gray, again, pending + {o}, live, dirty)
    requires o in m && m[o] == Gray && Listed(h[o]) && o !in gray && o !in again
    ensures Marking(h, m, w, [o] + gray, again, pending, live, dirty)
  {
  }

  /** Objects only lose their whiteness while marking. */
  ghost predicate Grew(m: Marks, n: Marks) {
    && m.Keys == n.Keys
    && forall o :: o in m ==> n[o] == m[o] || (White(m[o]) && !White(n[o]))
  }

  /** Marking never gives an object its whiteness back. */
  ghost predicate Kept(m: Marks, n: Marks) {
    && m.Keys == n.Keys
    && forall o :: o in m && !White(m[o]) ==> !White(n[o])
  }

  lemma KeptGrew(m: Marks, o: Id, c: Colour, n: Marks)
    requires o in m && !White(m[o]) && !White(c) && Grew(m[o := c], n)
    ensures Kept(m, n) && n[o] == c
    ensures Whites(m[o := c]) == Whites(m)
  {
    forall x | x in m && !White(m[x]) ensures !White(n[x]) {
      assert x in m[o := c];
    }
  }

  /** `propagatemark` takes a gray object off the list and blackens it ... */
  lemma GrayHead(h: Heap, m: Marks, w: Colour, gray: seq<Id>, again: seq<Id>, live: set<Id>, dirty: set<Id>)
    requires Marking(h, m, w, gray, again, {}, live, dirty) && gray != []
    ensures gray[0] in live && m[gray[0]] == Gray && Listed(h[gray[0]])
  {
  }

  lemma NotListed(h: Heap, m: Marks, w: Colour, gray: seq<Id>, again: seq<Id>,
                      pending: set<Id>, live: set<Id>, dirty: set<Id>, o: Id)
    requires Marking(h, m, w, gray, again, pending, live, dirty) && o in m && (m[o] == Black || !Listed(h[o]))
    ensures o !in gray && o !in again
  {
  }

  lemma PopBlack(h: Heap, m: Marks, w: Colour, gray: seq<Id>, again: seq<Id>, live: set<Id>, dirty: set<Id>)
    requires Marking(h, m, w, gray, again, {}, live, dirty) && gray != [] && !h[gray[0]].Thread?
    ensures Marking(h, m[gray[0] := Black], w, gray[1..], again, {gray[0]}, live, dirty)
    ensures gray[0] !in gray[1..] && gray[0] !in again
  {
  }

  /** ... or, for a thread, moves it to `grayagain` and leaves it gray. */
  lemma PopThread(h: Heap, m: Marks, w: Colour, gray: seq<Id>, again: seq<Id>, live: set<Id>, dirty: set<Id>)
    requires Marking(h, m, w, gray, again, {}, live, dirty) && gray != [] && h[gray[0]].Thread?
    ensures Marking(h, m, w, gray[1..], [gray[0]] + again, {gray[0]}, live, dirty)
  {
  }

  lemma EndThread(h: Heap, m: Marks, w: Colour, gray: seq<Id>, again: seq<Id>, live: set<Id>, dirty: set<Id>, o: Id)
    requires Marking(h, m, w, gray, again, {o}, live, dirty)
    requires o in again && h[o].Thread? && AllMarked(m, Refs(h, o))
    ensures Marking(h, m, w, gray, again, {}, live, dirty)
  {
  }

  ghost predicate AllMarked(m: Marks, rs: set<Id>) {
    forall r :: r in rs ==> r in m && !White(m[r])
  }

  lemma StackOneMore(m: Marks, stack: seq<Value>, i: nat)
    requires i < |stack| && AllMarked(m, StackIds(stack[..i])) && AllMarked(m, ValueIds(stack[i]))
    ensures AllMarked(m, StackIds(stack[..i + 1]))
  {
    forall r | r in StackIds(stack[..i + 1]) ensures r in m && !White(m[r]) {
      var v :| v in stack[..i + 1] && v.Ref? && v.id == r;
      assert v in stack[..i] || v == stack[i];
      if v in stack[..i] { assert r in StackIds(stack[..i]); } else { assert r in ValueIds(stack[i]); }
    }
  }

  lemma GrewThen(m: Marks, n: Marks, k: Marks, rs: set<Id>)
    requires Grew(m, n) && Grew(n, k)
    ensures Grew(m, k)
    ensures Whites(k) <= Whites(n) <= Whites(m)
    ensures AllMarked(n, rs) ==> AllMarked(k, rs)
  {
  }

  lemma MarkedOneMore(m: Marks, refs: seq<Id>, i: nat)
    requires i < |refs| && AllMarked(m, Ids(refs[..i])) && refs[i] in m && !White(m[refs[i]])
    ensures AllMarked(m, Ids(refs[..i + 1]))
  {
  }

  lemma GrewAfter(m: Marks, n: Marks, o: Id, c: Colour)
    requires o in m && White(m[o]) && !White(c)
    requires Grew(m[o := c], n)
    ensures Grew(m, n) && Grew(m, n[o := Black])
  {
    forall x | x in m ensures n[x] == m[x] || (White(m[x]) && !White(n[x])) {
      assert x in m[o := c];
    }
  }

  /** Once nothing is left to traverse, what is not white is closed. */
  lemma MarkedIsClosed(h: Heap, m: Marks, again: seq<Id>)
    requires h.Keys == m.Keys
    requires Tricolour(h, m, {}) && GrayLists(h, m, [], again, {}) && Clean(h, m, [], {})
    requires forall o :: o in again ==> h[o].Thread?
    ensures forall o, r :: o in h && !White(m[o]) && r in Refs(h, o) ==> r in h && !White(m[r])
  {
    forall o, r | o in h && !White(m[o]) && r in Refs(h, o)
      ensures r in h && !White(m[r])
    {
      hide Refs;
      if m[o] == Gray && !h[o].Str? { GrayLeft(h, m, again, o); }
      if h[o].Str? { StringRefs(h, o); }
    }
  }

  lemma GrayLeft(h: Heap, m: Marks, again: seq<Id>, o: Id)
    requires GrayLists(h, m, [], again, {}) && o in h && o in m && m[o] == Gray && !h[o].Str?
    requires forall o :: o in again ==> o in h && h[o].Thread?
    ensures h[o].OpenUpval? || h[o].Thread?
  {
  }

  // ----- The lists that own the objects -----

  ghost predicate RootList(h: Heap, root: seq<Id>, except: set<Id>) {
    && (forall o :: o in root ==> o in h && !h[o].Str? && !h[o].OpenUpval?)
    && Distinct(root)
    && (forall o :: o in h && !h[o].Str? && !h[o].OpenUpval? && o !in except ==> o in root)
  }

  ghost predicate StringTable(h: Heap, strt: seq<seq<Id>>) {
    && |strt| > 0
    && (forall b, o :: 0 <= b < |strt| && o in strt[b] ==>
          o in h && h[o].Str? && h[o].hash % |strt| == b)
    && (forall b :: 0 <= b < |strt| ==> Distinct(strt[b]))
    && (forall o :: o in h && h[o].Str? ==> o in strt[h[o].hash % |strt|])
  }

  /** The open upvalues of thread `t`, highest level first. */
  ghost predicate OpenList(h: Heap, t: Id, s: seq<Id>) {
    && t in h && h[t].Thread?
    && (forall u :: u in s ==>
          u in h && h[u].OpenUpval? && h[u].thread == t && h[u].level < |h[t].stack|)
    && (forall i, j :: 0 <= i < j < |s| ==> h[s[i]].level > h[s[j]].level)
  }

  /** Every thread has such a list, and `uvhead` has all open upvalues. */
  ghost predicate OpenLists(h: Heap, open: map<Id, seq<Id>>, uvhead: seq<Id>) {
    && (forall t :: t in open ==> OpenList(h, t, open[t]))
    && (forall t :: t in h && h[t].Thread? ==> t in open)
    && (forall u :: u in h && h[u].OpenUpval? ==> h[u].thread in open && u in open[h[u].thread])
    && (forall u :: u in uvhead <==> u in h && h[u].OpenUpval?)
  }

  function Cut(s: seq<Id>, i: nat): seq<Id>
    requires i < |s|
  {
    s[..i] + s[i + 1..]
  }

  lemma CutFacts(s: seq<Id>, i: nat)
    requires i < |s|
    ensures forall x :: x in Cut(s, i) ==> x in s
    ensures forall x :: x in s && x != s[i] ==> x in Cut(s, i)
    ensures Distinct(s) ==> Distinct(Cut(s, i)) && s[i] !in Cut(s, i)
  {
  }

  lemma CutLength(s: seq<Id>, i: nat)
    requires i < |s|
    ensures |Cut(s, i)| == |s| - 1
  {
  }

  function Without(s: seq<Id>, x: Id): seq<Id> {
    if s == [] then []
    else if s[0] == x then Without(s[1..], x)
    else [s[0]] + Without(s[1..], x)
  }

  lemma WithoutFacts(s: seq<Id>, x: Id)
    ensures forall y :: y in Without(s, x) <==> y in s && y != x
  {
  }

  lemma WithoutShorter(s: seq<Id>, x: Id)
    ensures |Without(s, x)| <= |s| && (x in s ==> |Without(s, x)| < |s|)
  {
  }

  /** `n` is `h` after the open upvalue `u` was freed or closed. */
  ghost predicate Unopened(h: Heap, u: Id, n: Heap) {
    && n.Keys <= h.Keys
    && (forall o :: o in h && o != u ==> o in n && n[o] == h[o])
    && (u in n ==> n[u].ClosedUpval?)
  }

  lemma OpenListKept(h: Heap, n: Heap, t: Id, s: seq<Id>, u: Id)
    requires OpenList(h, t, s) && Unopened(h, u, n) && u in h && h[u].OpenUpval? && u !in s
    ensures OpenList(n, t, s)
  {
  }

  lemma OpenListCut(h: Heap, n: Heap, t: Id, s: seq<Id>, i: nat)
    requires OpenList(h, t, s) && i < |s| && Unopened(h, s[i], n)
    ensures OpenList(n, t, Cut(s, i))
  {
    var r := Cut(s, i);
    CutFacts(s, i);
    assert t != s[i];
    assert Distinct(s) by {
      forall j, k | 0 <= j < k < |s| ensures s[j] != s[k] { assert h[s[j]].level > h[s[k]].level; }
    }
    forall j, k | 0 <= j < k < |r| ensures n[r[j]].level > n[r[k]].level {
      var j', k' := if j < i then j else j + 1, if k < i then k else k + 1;
      assert r[j] == s[j'] && r[k] == s[k'];
      assert h[s[j']].level > h[s[k']].level;
    }
  }

  lemma OpenListsCut(h: Heap, open: map<Id, seq<Id>>, uvhead: seq<Id>, t: Id, i: nat, n: Heap)
    requires OpenLists(h, open, uvhead) && t in open && i < |open[t]|
    requires Unopened(h, open[t][i], n)
    ensures OpenLists(n, open[t := Cut(open[t], i)], Without(uvhead, open[t][i]))
  {
    var u := open[t][i];
    var after := open[t := Cut(open[t], i)];
    assert OpenList(h, t, open[t]) && h[u].thread == t && h[u].OpenUpval?;
    CutFacts(open[t], i);
    WithoutFacts(uvhead, u);
    forall s | s in after ensures OpenList(n, s, after[s]) {
      assert OpenList(h, s, open[s]);
      if s == t {
        OpenListCut(h, n, t, open[t], i);
      } else {
        OpenListKept(h, n, s, open[s], u);
      }
    }
  }

  // ----- Sweeping -----

  /** `n`, `k` are heap and colours after a sweep had its way with `h`, `m`:
      only dead objects that are not fixed are gone, open upvalues may have
      been closed over their slot, and colours only turn to the current white. */
  ghost predicate Swept(h: Heap, m: Marks, n: Heap, k: Marks, w: Colour, fixed: set<Id>)
    requires White(w)
  {
    && h.Keys == m.Keys && n.Keys == k.Keys && n.Keys <= h.Keys
    && (forall o :: o in h && o !in n ==> m[o] == OtherWhite(w) && o !in fixed)
    && (forall o :: o in n ==>
          && (n[o] == h[o] || (h[o].OpenUpval? && n[o] == ClosedUpval(Slot(h, h[o].thread, h[o].level))))
          && Refs(n, o) == Refs(h, o))
    && (forall o :: o in n ==>
          k[o] == m[o] || (k[o] == w && (m[o] != OtherWhite(w) || o in fixed)))
  }

  lemma SweptThen(h: Heap, m: Marks, n: Heap, k: Marks, p: Heap, q: Marks, w: Colour, fixed: set<Id>)
    requires White(w) && Swept(h, m, n, k, w, fixed) && Swept(n, k, p, q, w, fixed)
    ensures Swept(h, m, p, q, w, fixed)
  {
    forall o | o in p
      ensures p[o] == h[o] || (h[o].OpenUpval? && p[o] == ClosedUpval(Slot(h, h[o].thread, h[o].level)))
    {
      if h[o].OpenUpval? && n[o] == h[o] && p[o] != n[o] {
        var t := h[o].thread;
        assert ValueIds(Slot(n, t, n[o].level)) == Refs(n, o);
        assert ValueIds(p[o].value) == Refs(p, o);
      }
    }
  }

  lemma SweptWhiten(h: Heap, m: Marks, o: Id, w: Colour, fixed: set<Id>)
    requires White(w) && h.Keys == m.Keys && o in h && (m[o] != OtherWhite(w) || o in fixed)
    ensures Swept(h, m, h, m[o := w], w, fixed)
  {
  }

  lemma SweptFree(h: Heap, m: Marks, o: Id, w: Colour, fixed: set<Id>)
    requires White(w) && h.Keys == m.Keys && o in h && m[o] == OtherWhite(w) && o !in fixed
    requires forall u :: u in h && h[u].OpenUpval? ==> h[u].thread != o
    ensures Swept(h, m, h - {o}, m - {o}, w, fixed)
  {
  }

  lemma SweptClose(h: Heap, m: Marks, u: Id, w: Colour, fixed: set<Id>)
    requires White(w) && h.Keys == m.Keys && u in h && h[u].OpenUpval?
    ensures Swept(h, m, h[u := ClosedUpval(Slot(h, h[u].thread, h[u].level))], m, w, fixed)
  {
  }

  /** The roots, and whatever is not dead, is in the heap and not dead. */
  ghost predicate Alive(h: Heap, m: Marks, otherWhite: Colour, roots: set<Id>) {
    && AliveClosed(h, m, otherWhite)
    && (forall r :: r in roots ==> r in h && r in m && m[r] != otherWhite)
  }

  /** Dead means unreachable. */
  lemma ReachableAlive(h: Heap, m: Marks, otherWhite: Colour, roots: set<Id>, o: Id)
    requires h.Keys == m.Keys && Alive(h, m, otherWhite, roots) && Reachable(h, roots, o)
    ensures o in h && m[o] != otherWhite
  {
    var s := set x | x in h && m[x] != otherWhite;
    assert Closed(h, s);
    assert roots <= s;
  }

  /** Fixed objects are strings, which hold nothing, or the main thread; there
      is one string of each text. */
  ghost predicate KindsOk(h: Heap, fixed: set<Id>, main: Id) {
    && main in h && h[main].Thread?
    && (forall o :: o in fixed ==> o in h && (h[o].Str? || o == main))
    && Interned(h)
  }

  ghost predicate Interned(h: Heap) {
    forall s, u :: s in h && u in h && h[s].Str? && h[s] == h[u] ==> s == u
  }

  lemma SweptInterned(h: Heap, m: Marks, n: Heap, k: Marks, w: Colour, fixed: set<Id>)
    requires White(w) && Swept(h, m, n, k, w, fixed) && Interned(h)
    ensures Interned(n)
  {
    hide Refs;
  }

  lemma SweptAlive(h: Heap, m: Marks, n: Heap, k: Marks, w: Colour, fixed: set<Id>, roots: set<Id>, main: Id)
    requires White(w) && Swept(h, m, n, k, w, fixed)
    requires Alive(h, m, OtherWhite(w), roots) && KindsOk(h, fixed, main) && main in roots
    ensures Alive(n, k, OtherWhite(w), roots) && KindsOk(n, fixed, main)
  {
    hide Interned;
    SweptInterned(h, m, n, k, w, fixed);
    forall o, r | o in n && k[o] != OtherWhite(w) && r in Refs(n, o)
      ensures r in n && k[r] != OtherWhite(w)
    {
      assert r in Refs(h, o);
      assert m[o] != OtherWhite(w);
      assert r in h && m[r] != OtherWhite(w);
    }
  }

  ghost function AlivePart(h: Heap, m: Marks, otherWhite: Colour, s: set<Id>): set<Id> {
    set x | x in s && x in h && x in m && m[x] != otherWhite
  }

  lemma SweptClosed(h: Heap, m: Marks, n: Heap, k: Marks, w: Colour, fixed: set<Id>, roots: set<Id>, s: set<Id>)
    requires White(w) && Swept(h, m, n, k, w, fixed) && Alive(h, m, OtherWhite(w), roots)
    requires roots <= s && (Closed(n, s) || Closed(h, s))
    ensures roots <= AlivePart(h, m, OtherWhite(w), s)
    ensures Closed(h, AlivePart(h, m, OtherWhite(w), s)) && Closed(n, AlivePart(h, m, OtherWhite(w), s))
  {
    var t := AlivePart(h, m, OtherWhite(w), s);
    forall o, r | o in t && r in Refs(h, o) ensures r in t {
      assert o in n && Refs(n, o) == Refs(h, o);
    }
    forall o, r | o in t && o in n && r in Refs(n, o) ensures r in t {
      assert Refs(n, o) == Refs(h, o);
    }
  }

  /** Sweeping leaves the reachable objects, and what they hold, as they were. */
  lemma SweptReachable(h: Heap, m: Marks, n: Heap, k: Marks, w: Colour, fixed: set<Id>, roots: set<Id>, o: Id)
    requires White(w) && Swept(h, m, n, k, w, fixed) && Alive(h, m, OtherWhite(w), roots)
    ensures Reachable(h, roots, o) <==> Reachable(n, roots, o)
  {
    hide Swept, Alive, Closed;
    if Reachable(h, roots, o) {
      forall s: set<Id> | roots <= s && Closed(n, s) ensures o in s {
        SweptClosed(h, m, n, k, w, fixed, roots, s);
        assert o in AlivePart(h, m, OtherWhite(w), s);
      }
    }
    if Reachable(n, roots, o) {
      forall s: set<Id> | roots <= s && Closed(h, s) ensures o in s {
        SweptClosed(h, m, n, k, w, fixed, roots, s);
        assert o in AlivePart(h, m, OtherWhite(w), s);
      }
    }
  }

  // ----- Keeping the lists -----

  lemma RootListCut(h: Heap, root: seq<Id>, i: nat)
    requires RootList(h, root, {}) && i < |root|
    ensures RootList(h, Cut(root, i), {root[i]})
  {
    CutFacts(root, i);
  }

  lemma RootListLess(h: Heap, root: seq<Id>, o: Id)
    requires RootList(h, root, {o}) && o !in root
    ensures RootList(h - {o}, root, {})
  {
  }

  lemma RootListOther(h: Heap, root: seq<Id>, o: Id, except: set<Id>)
    requires RootList(h, root, except) && o in h && (h[o].Str? || h[o].OpenUpval?)
    ensures RootList(h - {o}, root, except)
  {
  }

  lemma RootListClose(h: Heap, root: seq<Id>, u: Id, v: Value, except: set<Id>)
    requires RootList(h, root, except) && u in h && h[u].OpenUpval?
    ensures RootList(h[u := ClosedUpval(v)], [u] + root, except)
  {
  }

  lemma StringTableAt(h: Heap, strt: seq<seq<Id>>, b: nat, i: nat)
    requires StringTable(h, strt) && b < |strt| && i < |strt[b]|
    ensures strt[b][i] in h && h[strt[b][i]].Str? && Distinct(strt[b])
  {
    assert strt[b][i] in strt[b];
  }

  lemma StringTableCut(h: Heap, strt: seq<seq<Id>>, b: nat, i: nat)
    requires StringTable(h, strt) && b < |strt| && i < |strt[b]|
    ensures StringTable(h - {strt[b][i]}, strt[b := Cut(strt[b], i)])
  {
    hide Cut;
    var o, cut := strt[b][i], Cut(strt[b], i);
    CutFacts(strt[b], i);
    StringTableAt(h, strt, b, i);
    var after := strt[b := cut];
    forall c, x | 0 <= c < |after| && x in after[c]
      ensures x in h - {o} && h[x].Str? && h[x].hash % |after| == c
    {
      assert x in strt[c];
      assert x == o ==> c == b;
    }
  }

  lemma StringTableOther(h: Heap, strt: seq<seq<Id>>, o: Id)
    requires StringTable(h, strt) && o in h && !h[o].Str?
    ensures StringTable(h - {o}, strt)
    ensures forall v :: StringTable(h[o := ClosedUpval(v)], strt)
  {
  }

  lemma OpenListsOther(h: Heap, open: map<Id, seq<Id>>, uvhead: seq<Id>, o: Id)
    requires OpenLists(h, open, uvhead) && o in h && !h[o].Thread? && !h[o].OpenUpval?
    ensures OpenLists(h - {o}, open, uvhead)
    ensures forall u :: u in h && h[u].OpenUpval? ==> h[u].thread != o
  {
    forall t | t in open ensures OpenList(h - {o}, t, open[t]) {
      assert OpenList(h, t, open[t]);
    }
  }

  lemma OpenListsThread(h: Heap, open: map<Id, seq<Id>>, uvhead: seq<Id>, t: Id)
    requires OpenLists(h, open, uvhead) && t in open && open[t] == []
    ensures OpenLists(h - {t}, open - {t}, uvhead)
    ensures forall u :: u in h && h[u].OpenUpval? ==> h[u].thread != t
  {
    forall s | s in open && s != t ensures OpenList(h - {t}, s, open[s]) {
      assert OpenList(h, s, open[s]);
      assert forall u :: u in open[s] ==> u != t;
    }
  }

  /** The first `i` objects of a list carry the current white. */
  ghost predicate Whitened(m: Marks, s: seq<Id>, i: nat, w: Colour) {
    i <= |s| && forall j :: 0 <= j < i ==> s[j] in m && m[s[j]] == w
  }

  lemma WhitenedOneMore(m: Marks, s: seq<Id>, i: nat, w: Colour)
    requires Whitened(m, s, i, w) && i < |s|
    ensures Whitened(m[s[i] := w], s, i + 1, w)
  {
  }

  lemma WhitenedCut(m: Marks, s: seq<Id>, i: nat, w: Colour)
    requires Whitened(m, s, i, w) && i < |s| && Distinct(s)
    ensures Whitened(m - {s[i]}, Cut(s, i), i, w)
  {
    CutFacts(s, i);
  }

  lemma WhitenedNone(m: Marks, s: seq<Id>, w: Colour)
    ensures Whitened(m, s, 0, w)
  {
  }

  lemma SweptNothing(h: Heap, m: Marks, w: Colour, fixed: set<Id>)
    requires White(w) && h.Keys == m.Keys
    ensures Swept(h, m, h, m, w, fixed)
  {
  }

  /** The lists own every object of the heap, except those in `except`, once. */
  ghost predicate Owned(h: Heap, root: seq<Id>, strt: seq<seq<Id>>, open: map<Id, seq<Id>>, uvhead: seq<Id>, except: set<Id>) {
    && RootList(h, root, except)
    && StringTable(h, strt)
    && OpenLists(h, open, uvhead)
  }

  lemma FreeString(h: Heap, m: Marks, root: seq<Id>, strt: seq<seq<Id>>, open: map<Id, seq<Id>>, uvhead: seq<Id>,
                   b: nat, i: nat, w: Colour, fixed: set<Id>)
    requires h.Keys == m.Keys && Owned(h, root, strt, open, uvhead, {})
    requires b < |strt| && i < |strt[b]| && Whitened(m, strt[b], i, w)
    requires White(w) && strt[b][i] in m && m[strt[b][i]] == OtherWhite(w) && strt[b][i] !in fixed
    ensures Owned(h - {strt[b][i]}, root, strt[b := Cut(strt[b], i)], open, uvhead, {})
    ensures Swept(h, m, h - {strt[b][i]}, m - {strt[b][i]}, w, fixed)
    ensures (h - {strt[b][i]}).Keys == (m - {strt[b][i]}).Keys
    ensures Whitened(m - {strt[b][i]}, Cut(strt[b], i), i, w)
  {
    hide StringTable, RootList, OpenLists, Swept, Whitened, Distinct;
    StringTableAt(h, strt, b, i);
    var o := strt[b][i];
    OpenListsOther(h, open, uvhead, o);
    RootListOther(h, root, o, {});
    StringTableCut(h, strt, b, i);
    SweptFree(h, m, o, w, fixed);
    WhitenedCut(m, strt[b], i, w);
  }

  lemma FreeOpen(h: Heap, m: Marks, root: seq<Id>, strt: seq<seq<Id>>, open: map<Id, seq<Id>>, uvhead: seq<Id>,
                 except: set<Id>, t: Id, i: nat, w: Colour, fixed: set<Id>)
    requires h.Keys == m.Keys && Owned(h, root, strt, open, uvhead, except)
    requires t in open && i < |open[t]| && Whitened(m, open[t], i, w)
    requires White(w) && open[t][i] in m && m[open[t][i]] == OtherWhite(w) && open[t][i] !in fixed
    ensures Owned(h - {open[t][i]}, root, strt, open[t := Cut(open[t], i)], Without(uvhead, open[t][i]), except)
    ensures Swept(h, m, h - {open[t][i]}, m - {open[t][i]}, w, fixed)
    ensures (h - {open[t][i]}).Keys == (m - {open[t][i]}).Keys
    ensures Whitened(m - {open[t][i]}, Cut(open[t], i), i, w)
  {
    hide StringTable, RootList, OpenLists, Swept, Whitened, Distinct;
    OpenListAt(h, open, uvhead, t, i);
    var u := open[t][i];
    OpenListsCut(h, open, uvhead, t, i, h - {u});
    RootListOther(h, root, u, except);
    StringTableOther(h, strt, u);
    SweptFree(h, m, u, w, fixed);
    WhitenedCut(m, open[t], i, w);
  }

  lemma OpenListAt(h: Heap, open: map<Id, seq<Id>>, uvhead: seq<Id>, t: Id, i: nat)
    requires OpenLists(h, open, uvhead) && t in open && i < |open[t]|
    ensures open[t][i] in h && h[open[t][i]].OpenUpval? && open[t][i] in uvhead
    ensures h[open[t][i]].thread == t && t in h && h[t].Thread? && h[open[t][i]].level < |h[t].stack|
    ensures Distinct(open[t])
    ensures forall u :: u in h && h[u].OpenUpval? ==> h[u].thread != open[t][i]
  {
    assert OpenList(h, t, open[t]);
    forall j, k | 0 <= j < k < |open[t]| ensures open[t][j] != open[t][k] {
      assert h[open[t][j]].level > h[open[t][k]].level;
    }
    forall u | u in h && h[u].OpenUpval? ensures h[u].thread != open[t][i] {
      assert OpenList(h, h[u].thread, open[h[u].thread]);
    }
  }

  /** Closing the first open upvalue of `t` moves it to the root list. */
  lemma CloseOpen(h: Heap, root: seq<Id>, strt: seq<seq<Id>>, open: map<Id, seq<Id>>, uvhead: seq<Id>,
                  except: set<Id>, t: Id, v: Value)
    requires Owned(h, root, strt, open, uvhead, except) && t in open && open[t] != []
    ensures Owned(ClosedOver(h, open[t][0], v), [open[t][0]] + root, strt,
                  open[t := Cut(open[t], 0)], Without(uvhead, open[t][0]), except)
  {
    hide StringTable, RootList, OpenLists;
    OpenListAt(h, open, uvhead, t, 0);
    var u := open[t][0];
    OpenListsCut(h, open, uvhead, t, 0, ClosedOver(h, u, v));
    RootListClose(h, root, u, v, except);
    StringTableOther(h, strt, u);
  }

  lemma OwnedUpval(h: Heap, root: seq<Id>, strt: seq<seq<Id>>, open: map<Id, seq<Id>>, uvhead: seq<Id>,
                   except: set<Id>, t: Id, i: nat)
    requires Owned(h, root, strt, open, uvhead, except) && t in open && i < |open[t]|
    ensures open[t][i] in h && h[open[t][i]].OpenUpval? && h[open[t][i]].thread == t
    ensures open[t][i] in uvhead
  {
    OpenListAt(h, open, uvhead, t, i);
  }

  function ClosedOver(h: Heap, u: Id, v: Value): Heap {
    h[u := ClosedUpval(v)]
  }

  /** An open upvalue of `t` at `level` or above. */
  ghost predicate OpenAt(h: Heap, t: Id, level: nat, x: Id) {
    x in h && h[x].OpenUpval? && h[x].thread == t && h[x].level >= level
  }

  /** Of the open upvalues of `t` at `level` or above, all but those in `left`
      have been freed if dead and have their slot's value otherwise. No other
      object has changed. */
  ghost predicate ClosedDown(h: Heap, m: Marks, n: Heap, t: Id, level: nat, otherWhite: Colour, left: seq<Id>) {
    n.Keys <= h.Keys && forall x :: x in h ==> DownAt(h, m, n, t, level, otherWhite, left, x)
  }

  ghost predicate DownAt(h: Heap, m: Marks, n: Heap, t: Id, level: nat, otherWhite: Colour, left: seq<Id>, x: Id)
    requires x in h
  {
    if !OpenAt(h, t, level, x) || x in left then x in n && n[x] == h[x]
    else if x in m && m[x] == otherWhite then x !in n
    else x in n && n[x] == ClosedUpval(Slot(h, t, h[x].level))
  }

  ghost predicate SameMarks(m: Marks, k: Marks, s: seq<Id>) {
    forall x :: x in s ==> x in m && x in k && m[x] == k[x]
  }

  lemma DownStart(h: Heap, m: Marks, root: seq<Id>, strt: seq<seq<Id>>, open: map<Id, seq<Id>>, uvhead: seq<Id>,
                  except: set<Id>, t: Id, level: nat, otherWhite: Colour)
    requires Owned(h, root, strt, open, uvhead, except) && t in open && h.Keys == m.Keys
    ensures ClosedDown(h, m, h, t, level, otherWhite, open[t])
    ensures t in h && h[t].Thread? && SameMarks(m, m, open[t])
  {
    assert OpenList(h, t, open[t]);
  }

  lemma DownStep(h: Heap, m: Marks, n: Heap, k: Marks, n': Heap, t: Id, level: nat, otherWhite: Colour, left: seq<Id>)
    requires ClosedDown(h, m, n, t, level, otherWhite, left) && t in h && h[t].Thread?
    requires left != [] && OpenList(n, t, left) && n[left[0]].level >= level && left[0] in k
    requires left[0] in m && (m[left[0]] == otherWhite <==> k[left[0]] == otherWhite)
    requires var u := left[0];
             n' == if k[u] == otherWhite then n - {u} else ClosedOver(n, u, Slot(n, t, n[u].level))
    ensures ClosedDown(h, m, n', t, level, otherWhite, Cut(left, 0))
    ensures forall x :: x in Cut(left, 0) ==> x in left && x != left[0]
  {
    var u := left[0];
    assert Cut(left, 0) == left[1..];
    assert DownAt(h, m, n, t, level, otherWhite, left, t) && DownAt(h, m, n, t, level, otherWhite, left, u);
    forall x | x in h
      ensures DownAt(h, m, n', t, level, otherWhite, left[1..], x)
    {
      assert DownAt(h, m, n, t, level, otherWhite, left, x);
      if x == u { assert forall j :: 0 < j < |left| ==> n[left[j]].level < n[u].level; }
    }
  }

  lemma ClosedDownKeys(h: Heap, m: Marks, n: Heap, t: Id, level: nat, otherWhite: Colour, left: seq<Id>)
    requires ClosedDown(h, m, n, t, level, otherWhite, left)
    ensures n.Keys <= h.Keys
  {
  }

  lemma DownEnd(h: Heap, m: Marks, n: Heap, t: Id, level: nat, otherWhite: Colour, left: seq<Id>)
    requires ClosedDown(h, m, n, t, level, otherWhite, left)
    requires forall u :: u in left ==> u in n && n[u].OpenUpval? && n[u].level < level
    ensures ClosedDown(h, m, n, t, level, otherWhite, [])
  {
    forall x | x in h
      ensures DownAt(h, m, n, t, level, otherWhite, [], x)
    {
      assert DownAt(h, m, n, t, level, otherWhite, left, x);
    }
  }

  lemma OwnedOpen(h: Heap, root: seq<Id>, strt: seq<seq<Id>>, open: map<Id, seq<Id>>, uvhead: seq<Id>, except: set<Id>, t: Id)
    requires Owned(h, root, strt, open, uvhead, except) && t in open
    ensures OpenList(h, t, open[t])
  {
  }

  /** A slot has one open upvalue at most. */
  lemma OneUpval(h: Heap, root: seq<Id>, strt: seq<seq<Id>>, open: map<Id, seq<Id>>, uvhead: seq<Id>, except: set<Id>, u: Id, x: Id)
    requires Owned(h, root, strt, open, uvhead, except) && u in h && x in h && h[u].OpenUpval? && h[x] == h[u]
    ensures x == u
  {
    var s := open[h[u].thread];
    assert OpenList(h, h[u].thread, s);
    var i :| 0 <= i < |s| && s[i] == u;
    var j :| 0 <= j < |s| && s[j] == x;
  }

  lemma ClosedOverRefs(h: Heap, u: Id, v: Value)
    requires u in h && h[u].OpenUpval? && v == Slot(h, h[u].thread, h[u].level)
    ensures ClosedOver(h, u, v).Keys == h.Keys
    ensures forall o :: o in h ==> Refs(ClosedOver(h, u, v), o) == Refs(h, o)
  {
  }

  lemma ClosedOverColours(h: Heap, n: Heap, m: Marks, s: set<Id>)
    requires n.Keys == h.Keys && forall o :: o in h ==> Refs(n, o) == Refs(h, o)
    ensures Tricolour(h, m, {}) ==> Tricolour(n, m, {})
    ensures Closed(h, s) ==> Closed(n, s)
  {
    hide Refs;
    if Closed(h, s) {
      forall o, r | o in s && o in n && r in Refs(n, o) ensures r in s { assert r in Refs(h, o); }
    }
    if Tricolour(h, m, {}) {
      forall o, r | o in n && o in m && m[o] == Black && r in Refs(n, o) ensures r in m && !White(m[r]) {
        assert r in Refs(h, o);
      }
    }
  }

  lemma ClosedOverGray(h: Heap, m: Marks, gray: seq<Id>, again: seq<Id>, u: Id, v: Value)
    requires h.Keys == m.Keys && u in h && h[u].OpenUpval? && GrayLists(h, m, gray, again, {})
    ensures m[u] != Black
    ensures White(m[u]) ==> GrayLists(ClosedOver(h, u, v), m, gray, again, {})
    ensures m[u] == Gray ==> GrayLists(ClosedOver(h, u, v), m[u := Black], gray, again, {u})
  {
  }

  /** Closing an upvalue while marking: a gray one goes straight to black, and
      its value is still to be looked at. */
  lemma CloseMarking(h: Heap, m: Marks, w: Colour, gray: seq<Id>, again: seq<Id>, u: Id, v: Value)
    requires Marking(h, m, w, gray, again, {}, h.Keys, h.Keys) && u in h && h[u].OpenUpval?
    requires v == Slot(h, h[u].thread, h[u].level)
    ensures m[u] != Black
    ensures White(m[u]) ==> Marking(ClosedOver(h, u, v), m, w, gray, again, {}, h.Keys, h.Keys)
    ensures m[u] == Gray ==> Marking(ClosedOver(h, u, v), m[u := Black], w, gray, again, {u}, h.Keys, h.Keys)
  {
    hide Refs, GrayLists, Closed, ClosedOver, Tricolour, Clean;
    ClosedOverRefs(h, u, v);
    ClosedOverGray(h, m, gray, again, u, v);
    var n := ClosedOver(h, u, v);
    ClosedOverColours(h, n, m, h.Keys);
    if m[u] == Gray {
      TricolourPending(n, m, u);
    }
    CleanNone(n, m, gray, {} + h.Keys);
    CleanNone(n, m[u := Black], gray, {u} + h.Keys);
  }

  lemma TricolourPending(h: Heap, m: Marks, u: Id)
    requires u in m && m[u] == Gray && Tricolour(h, m, {})
    ensures Tricolour(h, m[u := Black], {u})
  {
  }

  lemma CleanNone(h: Heap, m: Marks, gray: seq<Id>, dirty: set<Id>)
    requires h.Keys <= dirty
    ensures Clean(h, m, gray, dirty)
  {
  }

  lemma SweptCloseWhiten(h: Heap, m: Marks, u: Id, v: Value, w: Colour, fixed: set<Id>)
    requires White(w) && h.Keys == m.Keys && u in h && h[u].OpenUpval? && m[u] != OtherWhite(w)
    requires v == Slot(h, h[u].thread, h[u].level)
    ensures Swept(h, m, ClosedOver(h, u, v), m, w, fixed)
    ensures Swept(h, m, ClosedOver(h, u, v), m[u := w], w, fixed)
  {
    SweptClose(h, m, u, w, fixed);
    SweptWhiten(ClosedOver(h, u, v), m, u, w, fixed);
    SweptThen(h, m, ClosedOver(h, u, v), m, ClosedOver(h, u, v), m[u := w], w, fixed);
  }

  lemma OwnedString(h: Heap, root: seq<Id>, strt: seq<seq<Id>>, open: map<Id, seq<Id>>, uvhead: seq<Id>,
                    except: set<Id>, b: nat, i: nat)
    requires Owned(h, root, strt, open, uvhead, except) && b < |strt| && i < |strt[b]|
    ensures strt[b][i] in h && h[strt[b][i]].Str?
  {
    StringTableAt(h, strt, b, i);
  }

  /** Open upvalues are never black. */
  ghost predicate OpenNotBlack(h: Heap, m: Marks) {
    forall u :: u in h && u in m && h[u].OpenUpval? ==> m[u] != Black
  }

  /** The first `k` objects of the root list, and the open upvalues of threads
      among them, carry the current white. */
  ghost predicate Prefix(m: Marks, open: map<Id, seq<Id>>, root: seq<Id>, k: nat, w: Colour) {
    && Whitened(m, root, k, w)
    && forall i :: 0 <= i < k && root[i] in open ==> Whitened(m, open[root[i]], |open[root[i]]|, w)
  }

  lemma PrefixNone(m: Marks, open: map<Id, seq<Id>>, root: seq<Id>, w: Colour)
    ensures Prefix(m, open, root, 0, w)
  {
  }

  /** Sweeping, cutting lists of open upvalues and whitening them keep the prefix. */
  lemma PrefixSwept(h: Heap, m: Marks, n: Heap, k: Marks, w: Colour, fixed: set<Id>,
                    open: map<Id, seq<Id>>, after: map<Id, seq<Id>>, root: seq<Id>, i: nat)
    requires White(w) && Swept(h, m, n, k, w, fixed) && Prefix(m, open, root, i, w)
    requires forall t :: t in after ==> t in open
    requires forall t :: t in after ==>
               (forall u :: u in after[t] ==> u in open[t] && u in n) || Whitened(k, after[t], |after[t]|, w)
    requires forall j :: 0 <= j < i ==> root[j] in n
    ensures Prefix(k, after, root, i, w)
  {
    forall j | 0 <= j < i && root[j] in after ensures Whitened(k, after[root[j]], |after[root[j]]|, w) {
      var t := root[j];
      assert Whitened(m, open[t], |open[t]|, w);
      forall l | 0 <= l < |after[t]| ensures after[t][l] in k && k[after[t][l]] == w {
        assert after[t][l] in after[t];
      }
    }
  }

  lemma PrefixClosed(m: Marks, open: map<Id, seq<Id>>, root: seq<Id>, i: nat, u: Id, w: Colour)
    requires Prefix(m, open, root, i, w) && u !in open && u in m && m[u] == w
    ensures Prefix(m, open, [u] + root, if i > 0 then i + 1 else 0, w)
  {
    var r := [u] + root;
    var k := if i > 0 then i + 1 else 0;
    forall j | 0 <= j < k && r[j] in open ensures Whitened(m, open[r[j]], |open[r[j]]|, w) {
      assert j > 0 && r[j] == root[j - 1];
    }
  }

  lemma PrefixOneMore(m: Marks, open: map<Id, seq<Id>>, root: seq<Id>, i: nat, w: Colour)
    requires Prefix(m, open, root, i, w) && i < |root| && root[i] in m
    requires root[i] in open ==> Whitened(m, open[root[i]], |open[root[i]]|, w)
    ensures Prefix(m[root[i] := w], open, root, i + 1, w)
  {
  }

  lemma PrefixCut(m: Marks, open: map<Id, seq<Id>>, root: seq<Id>, i: nat, w: Colour)
    requires Prefix(m, open, root, i, w) && i < |root|
    ensures Prefix(m, open, Cut(root, i), i, w)
  {
    assert forall j :: 0 <= j < i ==> Cut(root, i)[j] == root[j];
  }

  lemma PrefixFree(m: Marks, open: map<Id, seq<Id>>, root: seq<Id>, i: nat, w: Colour, o: Id)
    requires Prefix(m, open, root, i, w) && o !in root && forall t :: t in open ==> o !in open[t]
    ensures Prefix(m - {o}, open - {o}, root, i, w)
  {
    forall j | 0 <= j < i && root[j] in open - {o}
      ensures Whitened(m - {o}, (open - {o})[root[j]], |(open - {o})[root[j]]|, w)
    {
      assert Whitened(m, open[root[j]], |open[root[j]]|, w);
      forall l | 0 <= l < |open[root[j]]| ensures open[root[j]][l] != o {
        assert open[root[j]][l] in open[root[j]];
      }
    }
  }

  lemma SweptKinds(h: Heap, m: Marks, n: Heap, k: Marks, w: Colour, fixed: set<Id>, main: Id)
    requires White(w) && Swept(h, m, n, k, w, fixed)
    requires OpenNotBlack(h, m) && KindsOk(h, fixed, main) && main in fixed
    ensures OpenNotBlack(n, k) && KindsOk(n, fixed, main)
  {
  }

  lemma OwnedMembers(h: Heap, root: seq<Id>, strt: seq<seq<Id>>, open: map<Id, seq<Id>>, uvhead: seq<Id>, except: set<Id>)
    requires Owned(h, root, strt, open, uvhead, except)
    ensures forall o :: o in root ==> o in h && !h[o].Str? && !h[o].OpenUpval?
    ensures forall j :: 0 <= j < |root| ==> root[j] in h
    ensures forall t, u :: t in open && u in open[t] ==> u in h && h[u].OpenUpval?
    ensures forall t :: t in open <==> t in h && h[t].Thread?
  {
    forall t, u | t in open && u in open[t] ensures u in h && h[u].OpenUpval? {
      assert OpenList(h, t, open[t]);
    }
  }

  /** The swept prefix survives taking the first open upvalue of `t` off its
      list, whether it is freed ... */
  lemma PrefixTaken(h: Heap, m: Marks, n: Heap, k: Marks, w: Colour, fixed: set<Id>,
                    root: seq<Id>, strt: seq<seq<Id>>, open: map<Id, seq<Id>>, uvhead: seq<Id>, except: set<Id>,
                    t: Id, i: nat)
    requires White(w) && Swept(h, m, n, k, w, fixed) && Prefix(m, open, root, i, w) && i <= |root|
    requires t in open && open[t] != []
    requires Owned(n, root, strt, open[t := Cut(open[t], 0)], uvhead, except)
    ensures Prefix(k, open[t := Cut(open[t], 0)], root, i, w)
  {
    hide Owned, Swept, Prefix, Cut;
    OwnedMembers(n, root, strt, open[t := Cut(open[t], 0)], uvhead, except);
    CutFacts(open[t], 0);
    PrefixSwept(h, m, n, k, w, fixed, open, open[t := Cut(open[t], 0)], root, i);
  }

  /** ... or closed and put in front of the root list. */
  lemma PrefixTakenClosed(h: Heap, m: Marks, n: Heap, k: Marks, w: Colour, fixed: set<Id>,
                          root: seq<Id>, strt: seq<seq<Id>>, open: map<Id, seq<Id>>, uvhead: seq<Id>, except: set<Id>,
                          t: Id, i: nat)
    requires White(w) && Swept(h, m, n, k, w, fixed) && Prefix(m, open, root, i, w) && i <= |root|
    requires t in open && open[t] != []
    requires Owned(n, [open[t][0]] + root, strt, open[t := Cut(open[t], 0)], uvhead, except)
    requires open[t][0] in n && n[open[t][0]].ClosedUpval? && k[open[t][0]] == w
    ensures Prefix(k, open[t := Cut(open[t], 0)], [open[t][0]] + root, if i > 0 then i + 1 else 0, w)
  {
    hide Owned, Swept, Prefix, Cut;
    var after := open[t := Cut(open[t], 0)];
    OwnedMembers(n, [open[t][0]] + root, strt, after, uvhead, except);
    CutFacts(open[t], 0);
    assert forall j :: 0 <= j < i ==> root[j] == ([open[t][0]] + root)[j + 1];
    PrefixSwept(h, m, n, k, w, fixed, open, after, root, i);
    SweptKeys(h, m, n, k, w, fixed);
    PrefixClosed(k, after, root, i, open[t][0], w);
  }

  lemma SweptKeys(h: Heap, m: Marks, n: Heap, k: Marks, w: Colour, fixed: set<Id>)
    requires White(w) && Swept(h, m, n, k, w, fixed)
    ensures h.Keys == m.Keys && n.Keys == k.Keys && n.Keys <= h.Keys
  {
  }

  /** The first open upvalue of `t`, and the ones after it, in order of level. */
  lemma OpenFirst(h: Heap, root: seq<Id>, strt: seq<seq<Id>>, open: map<Id, seq<Id>>, uvhead: seq<Id>, except: set<Id>,
                  m: Marks, fixed: set<Id>, main: Id, t: Id)
    requires Owned(h, root, strt, open, uvhead, except) && t in open && open[t] != [] && h.Keys == m.Keys
    requires OpenNotBlack(h, m) && KindsOk(h, fixed, main)
    ensures var u := open[t][0];
            && u in h && h[u].OpenUpval? && u in m && m[u] != Black && u !in fixed
            && (forall x :: x in open[t] ==> x in h && h[x].OpenUpval? && h[x].level <= h[u].level)
  {
    assert OpenList(h, t, open[t]);
    forall x | x in open[t] ensures h[x].level <= h[open[t][0]].level {
      var i :| 0 <= i < |open[t]| && open[t][i] == x;
      if i > 0 { assert h[open[t][0]].level > h[open[t][i]].level; }
    }
  }

  lemma PrefixFirstClosed(h: Heap, m: Marks, n: Heap, k: Marks, w: Colour, fixed: set<Id>,
                          root: seq<Id>, strt: seq<seq<Id>>, open: map<Id, seq<Id>>, uvhead: seq<Id>, except: set<Id>,
                          t: Id, i: nat, v: Value)
    requires White(w) && Swept(h, m, n, k, w, fixed) && i <= |root| && t in open && open[t] != []
    requires Owned(n, [open[t][0]] + root, strt, open[t := Cut(open[t], 0)], uvhead, except)
    requires open[t][0] in h && open[t][0] in k && n == ClosedOver(h, open[t][0], v) && k[open[t][0]] == w
    ensures Prefix(m, open, root, i, w) ==>
              Prefix(k, open[t := Cut(open[t], 0)], [open[t][0]] + root, if i > 0 then i + 1 else 0, w)
  {
    hide Owned, Swept, Prefix, Cut;
    if Prefix(m, open, root, i, w) {
      PrefixTakenClosed(h, m, n, k, w, fixed, root, strt, open, uvhead, except, t, i);
    }
  }

  /** Freeing an object that left the root list; a thread has no open upvalues left. */
  lemma FreeRoot(h: Heap, m: Marks, root: seq<Id>, strt: seq<seq<Id>>, open: map<Id, seq<Id>>, uvhead: seq<Id>,
                 o: Id, w: Colour, fixed: set<Id>)
    requires h.Keys == m.Keys && Owned(h, root, strt, open, uvhead, {o})
    requires o in h && !h[o].Str? && !h[o].OpenUpval? && o !in root
    requires o in open ==> open[o] == []
    requires White(w) && m[o] == OtherWhite(w) && o !in fixed
    ensures Owned(h - {o}, root, strt, open - {o}, uvhead, {})
    ensures Swept(h, m, h - {o}, m - {o}, w, fixed)
    ensures (h - {o}).Keys == (m - {o}).Keys
  {
    hide StringTable, RootList, Swept;
    RootListLess(h, root, o);
    StringTableOther(h, strt, o);
    if h[o].Thread? {
      OpenListsThread(h, open, uvhead, o);
    } else {
      OpenListsOther(h, open, uvhead, o);
      assert o !in open;
      assert open - {o} == open;
    }
    SweptFree(h, m, o, w, fixed);
  }

  /** The root list only gained objects that used to be open upvalues. */
  ghost predicate FromOpen(h: Heap, root: seq<Id>, after: seq<Id>) {
    forall o :: o in after ==> o in root || (o in h && h[o].OpenUpval?)
  }

  lemma FromOpenThen(h: Heap, m: Marks, n: Heap, k: Marks, w: Colour, fixed: set<Id>, root: seq<Id>, mid: seq<Id>, after: seq<Id>)
    requires White(w) && Swept(h, m, n, k, w, fixed)
    requires FromOpen(h, root, mid) && FromOpen(n, mid, after)
    ensures FromOpen(h, root, after)
  {
  }

  lemma FreeAfterClose(h: Heap, m: Marks, n: Heap, k: Marks, w: Colour, fixed: set<Id>, root: seq<Id>, after: seq<Id>, o: Id)
    requires White(w) && Swept(h, m, n, k, w, fixed) && FromOpen(h, root, after)
    requires o in h && h[o].Thread? && o !in root && m[o] == OtherWhite(w) && o !in fixed
    ensures o !in after && (o in n ==> k[o] == OtherWhite(w) && n[o] == h[o])
  {
  }

  lemma RootListAt(h: Heap, root: seq<Id>, strt: seq<seq<Id>>, open: map<Id, seq<Id>>, uvhead: seq<Id>, i: nat)
    requires Owned(h, root, strt, open, uvhead, {}) && i < |root|
    ensures root[i] in h && !h[root[i]].Str? && !h[root[i]].OpenUpval?
    ensures h[root[i]].Thread? <==> root[i] in open
    ensures Owned(h, Cut(root, i), strt, open, uvhead, {root[i]})
    ensures root[i] !in Cut(root, i)
  {
    RootListCut(h, root, i);
    CutFacts(root, i);
  }

  lemma PrefixOpenSwept(h: Heap, m: Marks, n: Heap, k: Marks, w: Colour, fixed: set<Id>,
                        root: seq<Id>, strt: seq<seq<Id>>, open: map<Id, seq<Id>>, after: map<Id, seq<Id>>,
                        uvhead: seq<Id>, t: Id, i: nat)
    requires White(w) && Swept(h, m, n, k, w, fixed) && Prefix(m, open, root, i, w) && i <= |root|
    requires Owned(n, root, strt, after, uvhead, {}) && t in after && t in open && after == open[t := after[t]]
    requires Whitened(k, after[t], |after[t]|, w)
    ensures Prefix(k, after, root, i, w)
  {
    hide Owned, Swept, Prefix, Whitened;
    OwnedMembers(n, root, strt, after, uvhead, {});
    PrefixSwept(h, m, n, k, w, fixed, open, after, root, i);
  }

  // ----- From one phase to the next -----

  ghost function Threads(h: Heap): set<Id> {
    set o | o in h && h[o].Thread?
  }

  ghost predicate OnlyThreads(h: Heap, s: seq<Id>) {
    forall o :: o in s ==> o in h && h[o].Thread?
  }

  /** A collection starts with nothing but white objects. */
  lemma FreshMarking(h: Heap, m: Marks, w: Colour, live: set<Id>)
    requires h.Keys == m.Keys && White(w) && AllWhite(m, w) && Closed(h, live) && live <= h.Keys
    ensures Marking(h, m, w, [], [], {}, live, h.Keys)
  {
  }

  lemma AliveIsClosed(h: Heap, m: Marks, otherWhite: Colour, roots: set<Id>)
    requires h.Keys == m.Keys && Alive(h, m, otherWhite, roots) && NoneDead(m, otherWhite)
    ensures Closed(h, h.Keys) && roots <= h.Keys
  {
  }

  /** Before `remarkupvals`, any open upvalue may hold something white. */
  lemma DirtyUpvals(h: Heap, m: Marks, w: Colour, gray: seq<Id>, again: seq<Id>, live: set<Id>, dirty: set<Id>,
                    open: map<Id, seq<Id>>, uvhead: seq<Id>)
    requires Marking(h, m, w, gray, again, {}, live, dirty) && OpenLists(h, open, uvhead)
    ensures Marking(h, m, w, gray, again, {}, live, Threads(h) + Ids(uvhead[0..]))
  {
    forall o | o in h && h[o].OpenUpval? ensures o in Ids(uvhead[0..]) {
      assert o in uvhead;
    }
  }

  lemma RemarkedUpval(h: Heap, m: Marks, w: Colour, gray: seq<Id>, again: seq<Id>, live: set<Id>,
                      uvhead: seq<Id>, i: nat)
    requires i < |uvhead| && Marking(h, m, w, gray, again, {}, live, Threads(h) + Ids(uvhead[i..]))
    requires uvhead[i] in h && (m[uvhead[i]] == Gray ==> AllMarked(m, Refs(h, uvhead[i])))
    ensures Marking(h, m, w, gray, again, {}, live, Threads(h) + Ids(uvhead[i + 1..]))
  {
    assert Ids(uvhead[i..]) == Ids(uvhead[i + 1..]) + {uvhead[i]};
  }

  lemma RemarkedAll(h: Heap, m: Marks, w: Colour, gray: seq<Id>, again: seq<Id>, live: set<Id>, uvhead: seq<Id>)
    requires Marking(h, m, w, gray, again, {}, live, Threads(h) + Ids(uvhead[|uvhead|..]))
    ensures Marking(h, m, w, gray, again, {}, live, Threads(h))
  {
    assert Threads(h) + Ids(uvhead[|uvhead|..]) == Threads(h);
  }

  /** `atomic` traverses `grayagain` once more; every gray thread is on it. */
  lemma GrayAgain(h: Heap, m: Marks, w: Colour, again: seq<Id>, live: set<Id>)
    requires Marking(h, m, w, [], again, {}, live, Threads(h))
    ensures Marking(h, m, w, again, [], {}, live, {})
  {
  }

  /** After `atomic` whatever is not white is alive, and the white is dead. */
  lemma AtomicDone(h: Heap, m: Marks, w: Colour, again: seq<Id>, live: set<Id>, roots: set<Id>)
    requires Marking(h, m, w, [], again, {}, live, {}) && OnlyThreads(h, again) && AllMarked(m, roots)
    ensures Alive(h, m, w, roots)
    ensures forall o :: o in h && m[o] != w ==> o in live
    ensures OpenNotBlack(h, m)
  {
    MarkedIsClosed(h, m, again);
  }

  /** The buckets before `k` carry the current white. */
  ghost predicate Buckets(m: Marks, strt: seq<seq<Id>>, k: nat, w: Colour) {
    k <= |strt| && forall b :: 0 <= b < k ==> Whitened(m, strt[b], |strt[b]|, w)
  }

  lemma BucketsSwept(h: Heap, m: Marks, n: Heap, k: Marks, w: Colour, fixed: set<Id>,
                     strt: seq<seq<Id>>, after: seq<seq<Id>>, b: nat)
    requires White(w) && Swept(h, m, n, k, w, fixed) && Buckets(m, strt, b, w)
    requires |after| == |strt| && forall c :: 0 <= c < b ==> after[c] == strt[c]
    requires forall c, o :: 0 <= c < |after| && o in after[c] ==> o in n
    ensures Buckets(k, after, b, w)
  {
    forall c | 0 <= c < b ensures Whitened(k, after[c], |after[c]|, w) {
      assert Whitened(m, strt[c], |strt[c]|, w);
      assert forall j :: 0 <= j < |after[c]| ==> after[c][j] in after[c];
    }
  }

  /** When the sweep has come to the end of both tables, everything is white. */
  lemma SweepDone(h: Heap, m: Marks, w: Colour, root: seq<Id>, strt: seq<seq<Id>>, open: map<Id, seq<Id>>, uvhead: seq<Id>)
    requires h.Keys == m.Keys && Owned(h, root, strt, open, uvhead, {})
    requires Buckets(m, strt, |strt|, w) && Prefix(m, open, root, |root|, w)
    ensures AllWhite(m, w)
  {
    forall o | o in m ensures m[o] == w {
      if h[o].Str? {
        var b := h[o].hash % |strt|;
        assert o in strt[b];
        assert Whitened(m, strt[b], |strt[b]|, w);
      } else if h[o].OpenUpval? {
        var t := h[o].thread;
        assert o in open[t] && OpenList(h, t, open[t]);
        assert t in root;
        assert Whitened(m, open[t], |open[t]|, w);
      } else {
        assert o in root;
      }
    }
  }

  lemma GrewNothing(m: Marks)
    ensures Grew(m, m)
  {
  }

  lemma KeptMarked(m: Marks, n: Marks, rs: set<Id>)
    requires (Kept(m, n) || Grew(m, n)) && AllMarked(m, rs)
    ensures AllMarked(n, rs)
  {
  }

  lemma MarkedOne(m: Marks, o: Id)
    requires o in m && !White(m[o])
    ensures AllMarked(m, {o})
  {
  }

  lemma MarkedBoth(m: Marks, rs: set<Id>, ss: set<Id>)
    requires AllMarked(m, rs) && AllMarked(m, ss)
    ensures AllMarked(m, rs + ss)
  {
  }

  lemma ClosedAt(h: Heap, live: set<Id>, o: Id)
    requires Closed(h, live) && o in live && o in h
    ensures Refs(h, o) <= live
  {
  }

  lemma OnlyThreadsNone(h: Heap)
    ensures OnlyThreads(h, [])
  {
  }

  lemma UvheadAt(h: Heap, open: map<Id, seq<Id>>, uvhead: seq<Id>, i: nat)
    requires OpenLists(h, open, uvhead) && i < |uvhead|
    ensures uvhead[i] in h && h[uvhead[i]].OpenUpval?
  {
    assert uvhead[i] in uvhead;
  }

  lemma GrayLive(h: Heap, m: Marks, w: Colour, gray: seq<Id>, again: seq<Id>,
                 pending: set<Id>, live: set<Id>, dirty: set<Id>, o: Id)
    requires Marking(h, m, w, gray, again, pending, live, dirty) && o in m && !White(m[o])
    ensures o in live
  {
  }

  lemma NonEmpty(s: seq<Id>)
    ensures s == [] || exists u :: u in s
  {
    if s != [] { assert s[0] in s; }
  }

  /** While marking nothing is dead, so the whole heap counts as alive. */
  lemma MarkingAlive(h: Heap, m: Marks, w: Colour, gray: seq<Id>, again: seq<Id>, live: set<Id>, dirty: set<Id>, roots: set<Id>)
    requires Marking(h, m, w, gray, again, {}, live, dirty) && Closed(h, h.Keys) && roots <= h.Keys
    ensures Marking(h, m, w, gray, again, {}, h.Keys, dirty)
    ensures Alive(h, m, OtherWhite(w), roots) && OpenNotBlack(h, m)
  {
  }

  lemma AllWhiteAlive(h: Heap, m: Marks, w: Colour, roots: set<Id>)
    requires h.Keys == m.Keys && White(w) && AllWhite(m, w) && Alive(h, m, OtherWhite(w), roots)
    ensures Closed(h, h.Keys) && roots <= h.Keys && OpenNotBlack(h, m)
  {
  }

  lemma AliveFacts(h: Heap, m: Marks, w: Colour, gray: seq<Id>, again: seq<Id>, live: set<Id>, dirty: set<Id>, roots: set<Id>)
    requires Marking(h, m, w, gray, again, {}, live, dirty) && Alive(h, m, OtherWhite(w), roots)
    ensures Closed(h, h.Keys) && roots <= h.Keys
  {
  }

  lemma KindsOkFacts(h: Heap, fixed: set<Id>, main: Id)
    requires KindsOk(h, fixed, main)
    ensures main in h && h[main].Thread?
  {
  }

  lemma BucketsNone(m: Marks, strt: seq<seq<Id>>, w: Colour)
    ensures Buckets(m, strt, 0, w)
  {
  }

  lemma BucketsOneMore(h: Heap, m: Marks, n: Heap, k: Marks, w: Colour, fixed: set<Id>,
                       root: seq<Id>, strt: seq<seq<Id>>, after: seq<seq<Id>>, open: map<Id, seq<Id>>, uvhead: seq<Id>, b: nat)
    requires White(w) && Swept(h, m, n, k, w, fixed) && Buckets(m, strt, b, w) && b < |strt|
    requires Owned(n, root, after, open, uvhead, {})
    requires |after| == |strt| && after == strt[b := after[b]] && Whitened(k, after[b], |after[b]|, w)
    ensures Buckets(k, after, b + 1, w)
  {
    BucketsSwept(h, m, n, k, w, fixed, strt, after, b);
  }

  lemma BucketsKept(h: Heap, m: Marks, n: Heap, k: Marks, w: Colour, fixed: set<Id>,
                    root: seq<Id>, strt: seq<seq<Id>>, open: map<Id, seq<Id>>, uvhead: seq<Id>, b: nat)
    requires White(w) && Swept(h, m, n, k, w, fixed) && Buckets(m, strt, b, w)
    requires Owned(n, root, strt, open, uvhead, {})
    ensures Buckets(k, strt, b, w)
  {
    BucketsSwept(h, m, n, k, w, fixed, strt, strt, b);
  }

  lemma OwnedBuckets(h: Heap, root: seq<Id>, strt: seq<seq<Id>>, open: map<Id, seq<Id>>, uvhead: seq<Id>, except: set<Id>)
    requires Owned(h, root, strt, open, uvhead, except)
    ensures |strt| > 0
  {
  }

  /** A sweep with nothing dead frees nothing. */
  lemma SweptNoneDead(h: Heap, m: Marks, n: Heap, k: Marks, w: Colour, fixed: set<Id>)
    requires White(w) && Swept(h, m, n, k, w, fixed) && NoneDead(m, OtherWhite(w))
    ensures n.Keys == h.Keys
  {
  }

  ghost function Live(h: Heap, roots: set<Id>): set<Id> {
    set o | o in h && Reachable(h, roots, o)
  }

  lemma LiveClosed(h: Heap, m: Marks, otherWhite: Colour, roots: set<Id>)
    requires h.Keys == m.Keys && Alive(h, m, otherWhite, roots)
    ensures roots <= Live(h, roots) && Live(h, roots) <= h.Keys
    ensures Closed(h, Live(h, roots))
    ensures forall o :: o in Live(h, roots) ==> m[o] != otherWhite
    ensures forall o :: Reachable(h, roots, o) ==> o in Live(h, roots)
  {
    forall o | Reachable(h, roots, o) ensures o in h && m[o] != otherWhite {
      ReachableAlive(h, m, otherWhite, roots, o);
    }
    forall r | r in roots ensures Reachable(h, roots, r) {
      RootsReachable(h, roots, r);
    }
    forall o, r | o in Live(h, roots) && r in Refs(h, o) ensures r in Live(h, roots) {
      ReachableStep(h, roots, o, r);
      ReachableAlive(h, m, otherWhite, roots, r);
    }
  }

  /** After a sweep to the end, of the dead only the fixed are left. */
  lemma SweptToEnd(h: Heap, m: Marks, n: Heap, k: Marks, w: Colour, fixed: set<Id>, live: set<Id>)
    requires White(w) && Swept(h, m, n, k, w, fixed) && AllWhite(k, w)
    requires forall o :: o in h && m[o] != OtherWhite(w) ==> o in live
    requires forall o :: o in live ==> o in h && m[o] != OtherWhite(w)
    requires fixed <= h.Keys
    ensures n.Keys == live + fixed
  {
  }

  lemma SweptFreed(h: Heap, m: Marks, n: Heap, k: Marks, w: Colour, fixed: set<Id>)
    requires White(w) && Swept(h, m, n, k, w, fixed)
    ensures n.Keys <= h.Keys && forall o :: o in h && o !in n ==> o in m && m[o] == OtherWhite(w)
  {
  }

  lemma SweptRefs(h: Heap, m: Marks, n: Heap, k: Marks, w: Colour, fixed: set<Id>)
    requires White(w) && Swept(h, m, n, k, w, fixed)
    ensures forall o :: o in n ==> o in h && Refs(n, o) == Refs(h, o)
  {
  }

  // ----- What the mutator may do -----

  predicate Plain(b: Body) { b.Udata? || b.Func? || b.Tab? || b.Proto? || b.ClosedUpval? }

  ghost predicate AllAlive(h: Heap, m: Marks, otherWhite: Colour, s: set<Id>) {
    forall r :: r in s ==> r in h && r in m && m[r] != otherWhite
  }

  lemma OpenListsWrite(h: Heap, open: map<Id, seq<Id>>, uvhead: seq<Id>, o: Id, b: Body)
    requires OpenLists(h, open, uvhead) && o in h && Plain(h[o]) && Plain(b)
    ensures OpenLists(h[o := b], open, uvhead)
  {
    forall t | t in open ensures OpenList(h[o := b], t, open[t]) {
      assert OpenList(h, t, open[t]);
    }
  }

  lemma OwnedWrite(h: Heap, root: seq<Id>, strt: seq<seq<Id>>, open: map<Id, seq<Id>>, uvhead: seq<Id>, o: Id, b: Body)
    requires Owned(h, root, strt, open, uvhead, {}) && o in h && Plain(h[o]) && Plain(b)
    ensures Owned(h[o := b], root, strt, open, uvhead, {})
  {
    hide OpenLists;
    OpenListsWrite(h, open, uvhead, o, b);
  }

  /** Overwriting an object with references to live objects. */
  lemma AliveWrite(h: Heap, m: Marks, otherWhite: Colour, roots: set<Id>, o: Id, b: Body, extra: set<Id>)
    requires h.Keys == m.Keys && Alive(h, m, otherWhite, roots) && AllAlive(h, m, otherWhite, extra)
    requires o in h && Plain(h[o]) && Plain(b) && Refs(h[o := b], o) <= Refs(h, o) + extra
    ensures Alive(h[o := b], m, otherWhite, roots)
  {
    forall x, r | x in h && m[x] != otherWhite && r in Refs(h[o := b], x)
      ensures r in h && m[r] != otherWhite
    {
      if x != o { assert Refs(h[o := b], x) == Refs(h, x); }
    }
  }

  lemma WriteRefs(h: Heap, o: Id, b: Body)
    requires o in h && Plain(h[o]) && Plain(b)
    ensures forall x :: x in h && x != o ==> Refs(h[o := b], x) == Refs(h, x)
  {
  }

  /** The written object is black only if it holds nothing white. */
  lemma MarkingWrite(h: Heap, m: Marks, w: Colour, gray: seq<Id>, again: seq<Id>, o: Id, b: Body)
    requires Marking(h, m, w, gray, again, {}, h.Keys, h.Keys)
    requires o in h && Plain(h[o]) && Plain(b) && (Listed(h[o]) <==> Listed(b)) && (h[o].Tab? <==> b.Tab?)
    requires Refs(h[o := b], o) <= h.Keys
    requires m[o] != Black || AllMarked(m, Refs(h[o := b], o))
    ensures Marking(h[o := b], m, w, gray, again, {}, h.Keys, h.Keys)
  {
    WriteRefs(h, o, b);
  }

  /** A black object that came to hold something white, before its barrier. */
  lemma MarkingWritePending(h: Heap, m: Marks, w: Colour, gray: seq<Id>, again: seq<Id>, o: Id, b: Body)
    requires Marking(h, m, w, gray, again, {}, h.Keys, h.Keys)
    requires o in h && Plain(h[o]) && Plain(b) && (Listed(h[o]) <==> Listed(b)) && (h[o].Tab? <==> b.Tab?)
    requires Refs(h[o := b], o) <= h.Keys && m[o] == Black
    ensures Marking(h[o := b], m, w, gray, again, {o}, h.Keys, h.Keys)
  {
    WriteRefs(h, o, b);
  }

  /** `luaC_barrierback`: a black table goes back to gray. */
  lemma MarkingBack(h: Heap, m: Marks, w: Colour, gray: seq<Id>, again: seq<Id>, o: Id)
    requires Marking(h, m, w, gray, again, {o}, h.Keys, h.Keys) && o in h && h[o].Tab? && m[o] == Black
    ensures Marking(h, m[o := Gray], w, gray, [o] + again, {}, h.Keys, h.Keys)
  {
  }

  lemma BlackNotSwept(m: Marks, open: map<Id, seq<Id>>, root: seq<Id>, i: nat, strt: seq<seq<Id>>, k: nat, w: Colour, o: Id, c: Colour)
    requires White(w) && o in m && m[o] == Black
    ensures Prefix(m, open, root, i, w) ==> Prefix(m[o := c], open, root, i, w)
    ensures Buckets(m, strt, k, w) ==> Buckets(m[o := c], strt, k, w)
  {
  }

  lemma BlackRecoloured(h: Heap, m: Marks, otherWhite: Colour, roots: set<Id>, o: Id, c: Colour)
    requires h.Keys == m.Keys && White(otherWhite) && o in m && m[o] == Black && c != otherWhite && c != Black
    ensures Alive(h, m, otherWhite, roots) ==> Alive(h, m[o := c], otherWhite, roots)
    ensures OpenNotBlack(h, m) ==> OpenNotBlack(h, m[o := c])
  {
  }

  lemma AllAliveFacts(h: Heap, m: Marks, w: Colour, o: Id, rs: set<Id>, extra: set<Id>, roots: set<Id>)
    requires White(w) && h.Keys == m.Keys && Alive(h, m, OtherWhite(w), roots) && NoneDead(m, OtherWhite(w))
    requires o in h && rs <= Refs(h, o) + extra && AllAlive(h, m, OtherWhite(w), extra)
    ensures rs <= h.Keys
  {
  }

  lemma NoneDeadMarking(h: Heap, m: Marks, w: Colour, gray: seq<Id>, again: seq<Id>, pending: set<Id>, live: set<Id>, dirty: set<Id>)
    requires Marking(h, m, w, gray, again, pending, live, dirty)
    ensures NoneDead(m, OtherWhite(w))
  {
  }

  lemma TricolourAt(h: Heap, m: Marks, w: Colour, gray: seq<Id>, again: seq<Id>, live: set<Id>, dirty: set<Id>, o: Id)
    requires Marking(h, m, w, gray, again, {}, live, dirty) && o in m && m[o] == Black
    ensures AllMarked(m, Refs(h, o))
  {
  }

  lemma MarkedSubset(m: Marks, rs: set<Id>, ss: set<Id>, ts: set<Id>)
    requires AllMarked(m, ss) && AllMarked(m, ts) && rs <= ss + ts
    ensures AllMarked(m, rs)
  {
  }

  lemma NotMarked(m: Marks, v: Value)
    requires !(v.Ref? && v.id in m && White(m[v.id])) && ValueIds(v) <= m.Keys
    ensures AllMarked(m, ValueIds(v))
  {
  }

  lemma PlainWrite(h: Heap, m: Marks, fixed: set<Id>, main: Id, o: Id, b: Body)
    requires h.Keys == m.Keys && OpenNotBlack(h, m) && KindsOk(h, fixed, main) && o in h && Plain(h[o]) && Plain(b)
    ensures OpenNotBlack(h[o := b], m) && KindsOk(h[o := b], fixed, main)
  {
  }

  lemma MarkingClosed(h: Heap, m: Marks, w: Colour, gray: seq<Id>, again: seq<Id>, pending: set<Id>, live: set<Id>, dirty: set<Id>)
    requires Marking(h, m, w, gray, again, pending, live, dirty)
    ensures Closed(h, live)
  {
  }

  /** Thread `t` with `o` on top of its stack. */
  ghost predicate Pushed(h: Heap, n: Heap, t: Id, o: Id) {
    t in h && h[t].Thread? && n == h[t := Thread(h[t].stack + [Ref(o)], h[t].gt)]
  }

  /** A closure `o` over slots of thread `t`, on top of its stack: nothing else
      is new but upvalues of the closure, and nothing else has changed. */
  ghost predicate ClosureMade(h: Heap, n: Heap, t: Id, o: Id, refs: seq<Id>, levels: seq<nat>, ups: seq<Id>) {
    && o in n && n[o] == Func(refs + ups) && |ups| == |levels|
    && (forall i :: 0 <= i < |levels| ==> ups[i] in n && n[ups[i]] == OpenUpval(t, levels[i]))
    && (forall x :: x in n ==> x in h || x == o || x in ups)
    && (forall x :: x in h && x != t ==> x in n && n[x] == h[x])
    && t in h && h[t].Thread? && t in n && n[t] == Thread(h[t].stack + [Ref(o)], h[t].gt)
  }

  lemma ClosureIs(h: Heap, k: Heap, n: Heap, t: Id, o: Id, refs: seq<Id>, levels: seq<nat>, ups: seq<Id>)
    requires t in h && h[t].Thread? && o !in h && o !in k && o != t
    requires |ups| == |levels| && forall i :: 0 <= i < |levels| ==> ups[i] in k && k[ups[i]] == OpenUpval(t, levels[i])
    requires forall x :: x in k ==> x in h || x in ups
    requires forall x :: x in h ==> x in k && k[x] == h[x]
    requires Pushed(k[o := Func(refs + ups)], n, t, o)
    ensures ClosureMade(h, n, t, o, refs, levels, ups)
  {
  }

  /** One slot of one thread has a new value. */
  ghost predicate SlotStored(h: Heap, n: Heap, t: Id, level: nat, v: Value) {
    && t in h && h[t].Thread? && level < |h[t].stack|
    && n == h[t := Thread(h[t].stack[level := v], h[t].gt)]
  }

  /** A thread's stack after a store: slots keep their value or get one of `extra`. */
  ghost predicate StackStore(h: Heap, t: Id, stack: seq<Value>, gt: Id, extra: set<Id>) {
    && t in h && h[t].Thread?
    && (gt == h[t].gt || gt in extra)
    && forall i :: 0 <= i < |stack| ==>
         (i < |h[t].stack| && stack[i] == h[t].stack[i]) || ValueIds(stack[i]) <= extra
  }

  lemma StackStoreRefs(h: Heap, t: Id, stack: seq<Value>, gt: Id, extra: set<Id>)
    requires StackStore(h, t, stack, gt, extra)
    ensures Refs(h[t := Thread(stack, gt)], t) <= Refs(h, t) + extra
    ensures forall o :: o in h && o != t ==>
              Refs(h[t := Thread(stack, gt)], o) <= Refs(h, o) + (if h[o].OpenUpval? && h[o].thread == t then extra else {})
  {
    var n := h[t := Thread(stack, gt)];
    forall r | r in StackIds(stack) ensures r in StackIds(h[t].stack) + extra {
      var v :| v in stack && v.Ref? && v.id == r;
      var i :| 0 <= i < |stack| && stack[i] == v;
      assert r in ValueIds(stack[i]);
      if i < |h[t].stack| && stack[i] == h[t].stack[i] { assert h[t].stack[i] in h[t].stack; }
    }
  }

  lemma OpenListsStack(h: Heap, open: map<Id, seq<Id>>, uvhead: seq<Id>, t: Id, stack: seq<Value>, gt: Id)
    requires OpenLists(h, open, uvhead) && t in open
    requires forall u :: u in open[t] && u in h && h[u].OpenUpval? ==> h[u].level < |stack|
    ensures t in h && h[t].Thread? && OpenLists(h[t := Thread(stack, gt)], open, uvhead)
  {
    assert OpenList(h, t, open[t]);
    forall s | s in open ensures OpenList(h[t := Thread(stack, gt)], s, open[s]) {
      assert OpenList(h, s, open[s]);
    }
  }

  lemma OwnedStack(h: Heap, root: seq<Id>, strt: seq<seq<Id>>, open: map<Id, seq<Id>>, uvhead: seq<Id>,
                   t: Id, stack: seq<Value>, gt: Id)
    requires Owned(h, root, strt, open, uvhead, {}) && t in open
    requires forall u :: u in open[t] && u in h && h[u].OpenUpval? ==> h[u].level < |stack|
    ensures Owned(h[t := Thread(stack, gt)], root, strt, open, uvhead, {})
  {
    hide OpenLists;
    OpenListsStack(h, open, uvhead, t, stack, gt);
  }

  lemma AliveStack(h: Heap, m: Marks, otherWhite: Colour, roots: set<Id>, t: Id, stack: seq<Value>, gt: Id, extra: set<Id>)
    requires h.Keys == m.Keys && Alive(h, m, otherWhite, roots) && AllAlive(h, m, otherWhite, extra)
    requires StackStore(h, t, stack, gt, extra)
    ensures Alive(h[t := Thread(stack, gt)], m, otherWhite, roots)
  {
    hide Refs, StackStore;
    StackStoreThread(h, t, stack, gt, extra);
    StackStoreRefs(h, t, stack, gt, extra);
    var n := h[t := Thread(stack, gt)];
    forall o, r | o in h && r in Refs(n, o) ensures r in Refs(h, o) || r in extra {
      assert Refs(n, o) <= Refs(h, o) + extra;
    }
    AliveLess(h, m, n, otherWhite, roots, extra);
  }

  lemma AliveLess(h: Heap, m: Marks, n: Heap, otherWhite: Colour, roots: set<Id>, extra: set<Id>)
    requires h.Keys == m.Keys && n.Keys == h.Keys && Alive(h, m, otherWhite, roots) && AllAlive(h, m, otherWhite, extra)
    requires forall o, r :: o in h && r in Refs(n, o) ==> r in Refs(h, o) || r in extra
    ensures Alive(n, m, otherWhite, roots)
  {
    hide Refs;
  }

  lemma StackKinds(h: Heap, m: Marks, fixed: set<Id>, main: Id, t: Id, stack: seq<Value>, gt: Id)
    requires h.Keys == m.Keys && OpenNotBlack(h, m) && KindsOk(h, fixed, main) && t in h && h[t].Thread?
    ensures OpenNotBlack(h[t := Thread(stack, gt)], m) && KindsOk(h[t := Thread(stack, gt)], fixed, main)
  {
  }

  lemma TricolourStack(h: Heap, m: Marks, t: Id, stack: seq<Value>, gt: Id, extra: set<Id>, s: set<Id>)
    requires h.Keys == m.Keys && StackStore(h, t, stack, gt, extra) && extra <= s
    requires forall o :: o in h && m[o] == Black ==> !h[o].Thread? && !h[o].OpenUpval?
    ensures Tricolour(h, m, {}) ==> Tricolour(h[t := Thread(stack, gt)], m, {})
    ensures Closed(h, s) ==> Closed(h[t := Thread(stack, gt)], s)
  {
    hide Refs, StackStore;
    StackStoreRefs(h, t, stack, gt, extra);
    StackStoreThread(h, t, stack, gt, extra);
    var n := h[t := Thread(stack, gt)];
    if Tricolour(h, m, {}) {
      forall o, r | o in n && m[o] == Black && r in Refs(n, o) ensures r in m && !White(m[r]) {
        assert o != t;
        assert r in Refs(h, o);
      }
    }
    if Closed(h, s) {
      forall o, r | o in s && o in n && r in Refs(n, o) ensures r in s {
        assert r in Refs(h, o) || r in extra;
      }
    }
  }

  lemma StackStoreThread(h: Heap, t: Id, stack: seq<Value>, gt: Id, extra: set<Id>)
    requires StackStore(h, t, stack, gt, extra)
    ensures t in h && h[t].Thread?
  {
  }

  lemma GrayStack(h: Heap, m: Marks, gray: seq<Id>, again: seq<Id>, t: Id, stack: seq<Value>, gt: Id)
    requires GrayLists(h, m, gray, again, {}) && t in h && h[t].Thread?
    ensures GrayLists(h[t := Thread(stack, gt)], m, gray, again, {})
  {
  }

  lemma MarkingStack(h: Heap, m: Marks, w: Colour, gray: seq<Id>, again: seq<Id>, t: Id, stack: seq<Value>, gt: Id, extra: set<Id>)
    requires Marking(h, m, w, gray, again, {}, h.Keys, h.Keys) && StackStore(h, t, stack, gt, extra) && extra <= h.Keys
    ensures Marking(h[t := Thread(stack, gt)], m, w, gray, again, {}, h.Keys, h.Keys)
  {
    hide Refs, StackStore, Closed, Tricolour, Clean;
    StackStoreThread(h, t, stack, gt, extra);
    TricolourStack(h, m, t, stack, gt, extra, h.Keys);
    GrayStack(h, m, gray, again, t, stack, gt);
    CleanNone(h[t := Thread(stack, gt)], m, gray, {} + h.Keys);
  }

  // ----- New objects -----

  function InsertAt(s: seq<Id>, p: nat, o: Id): seq<Id>
    requires p <= |s|
  {
    s[..p] + [o] + s[p..]
  }

  /** Where a position of the root list is after an insertion at `p`. */
  function Shifted(i: nat, p: nat): nat {
    if p < i then i + 1 else i
  }

  /** A new thread starts with no open upvalues. */
  function WithList(open: map<Id, seq<Id>>, o: Id, b: Body): map<Id, seq<Id>> {
    if b.Thread? then open[o := []] else open
  }

  lemma InsertFacts(s: seq<Id>, p: nat, o: Id)
    requires p <= |s|
    ensures forall x :: x in InsertAt(s, p, o) <==> x in s || x == o
    ensures Distinct(s) && o !in s ==> Distinct(InsertAt(s, p, o))
    ensures |InsertAt(s, p, o)| == |s| + 1
  {
    var r := InsertAt(s, p, o);
    assert r[p] == o;
    forall x | x in s ensures x in r {
      var i :| 0 <= i < |s| && s[i] == x;
      assert r[if i < p then i else i + 1] == x;
    }
  }

  lemma InsertLength(s: seq<Id>, p: nat, o: Id)
    requires p <= |s|
    ensures |InsertAt(s, p, o)| == |s| + 1
    ensures forall i :: 0 <= i <= |s| ==> Shifted(i, p) <= |s| + 1
    ensures Shifted(0, p) == 0
  {
  }

  lemma OpenListsNew(h: Heap, open: map<Id, seq<Id>>, uvhead: seq<Id>, o: Id, b: Body)
    requires OpenLists(h, open, uvhead) && o !in h && (Plain(b) || b.Thread?)
    ensures o !in open && forall u :: u in h && h[u].OpenUpval? ==> h[u].thread != o
    ensures OpenLists(h[o := b], WithList(open, o, b), uvhead)
  {
    var after := WithList(open, o, b);
    assert o in open ==> OpenList(h, o, open[o]);
    forall t | t in after ensures OpenList(h[o := b], t, after[t]) {
      if t in open {
        assert OpenList(h, t, open[t]);
      }
    }
  }

  lemma RootListNew(h: Heap, root: seq<Id>, o: Id, b: Body, p: nat)
    requires RootList(h, root, {}) && o !in h && (Plain(b) || b.Thread?) && p <= |root|
    ensures o !in root && RootList(h[o := b], InsertAt(root, p, o), {})
  {
    hide InsertAt;
    InsertFacts(root, p, o);
  }

  lemma StringTableNew(h: Heap, strt: seq<seq<Id>>, o: Id, b: Body)
    requires StringTable(h, strt) && o !in h && !b.Str?
    ensures StringTable(h[o := b], strt)
  {
  }

  lemma OwnedNew(h: Heap, root: seq<Id>, strt: seq<seq<Id>>, open: map<Id, seq<Id>>, uvhead: seq<Id>, o: Id, b: Body, p: nat)
    requires Owned(h, root, strt, open, uvhead, {}) && o !in h && (Plain(b) || b.Thread?) && p <= |root|
    ensures o !in open && forall u :: u in h && h[u].OpenUpval? ==> h[u].thread != o
    ensures Owned(h[o := b], InsertAt(root, p, o), strt, WithList(open, o, b), uvhead, {})
  {
    hide OpenLists, RootList, StringTable, InsertAt;
    OpenListsNew(h, open, uvhead, o, b);
    RootListNew(h, root, o, b, p);
    StringTableNew(h, strt, o, b);
  }

  lemma AliveNew(h: Heap, m: Marks, w: Colour, roots: set<Id>, o: Id, b: Body)
    requires White(w) && h.Keys == m.Keys && Alive(h, m, OtherWhite(w), roots) && o !in h
    requires AllAlive(h, m, OtherWhite(w), Refs(h[o := b], o))
    requires forall u :: u in h && h[u].OpenUpval? ==> h[u].thread != o
    ensures Alive(h[o := b], m[o := w], OtherWhite(w), roots)
  {
    var n := h[o := b];
    forall x, r | x in n && m[o := w][x] != OtherWhite(w) && r in Refs(n, x)
      ensures r in n && m[o := w][r] != OtherWhite(w)
    {
      if x != o { assert Refs(n, x) == Refs(h, x); }
    }
  }

  lemma NewRefs(h: Heap, o: Id, b: Body)
    requires o !in h && forall u :: u in h && h[u].OpenUpval? ==> h[u].thread != o
    ensures forall x :: x in h ==> Refs(h[o := b], x) == Refs(h, x)
  {
  }

  lemma GrayNew(h: Heap, m: Marks, w: Colour, gray: seq<Id>, again: seq<Id>, o: Id, b: Body)
    requires h.Keys == m.Keys && White(w) && GrayLists(h, m, gray, again, {}) && o !in h
    ensures GrayLists(h[o := b], m[o := w], gray, again, {})
  {
  }

  lemma TricolourNew(h: Heap, m: Marks, w: Colour, o: Id, b: Body)
    requires h.Keys == m.Keys && White(w) && Tricolour(h, m, {}) && Closed(h, h.Keys) && o !in h
    requires Refs(h[o := b], o) <= h.Keys
    requires forall u :: u in h && h[u].OpenUpval? ==> h[u].thread != o
    ensures Tricolour(h[o := b], m[o := w], {}) && Closed(h[o := b], h[o := b].Keys)
  {
    hide Refs;
    NewRefs(h, o, b);
    var n, k := h[o := b], m[o := w];
    forall x, r | x in n && k[x] == Black && r in Refs(n, x) ensures r in k && !White(k[r]) {
      assert r in Refs(h, x);
    }
    forall x, r | x in n.Keys && x in n && r in Refs(n, x) ensures r in n.Keys {
      if x != o { assert r in Refs(h, x); }
    }
  }

  lemma MarkingNew(h: Heap, m: Marks, w: Colour, gray: seq<Id>, again: seq<Id>, o: Id, b: Body)
    requires Marking(h, m, w, gray, again, {}, h.Keys, h.Keys) && o !in h
    requires Refs(h[o := b], o) <= h.Keys
    requires forall u :: u in h && h[u].OpenUpval? ==> h[u].thread != o
    ensures Marking(h[o := b], m[o := w], w, gray, again, {}, h[o := b].Keys, h[o := b].Keys)
  {
    hide Refs, Tricolour, GrayLists, Closed, Clean;
    TricolourNew(h, m, w, o, b);
    GrayNew(h, m, w, gray, again, o, b);
    CleanNone(h[o := b], m[o := w], gray, {} + h[o := b].Keys);
  }

  lemma ColoursNew(h: Heap, m: Marks, w: Colour, fixed: set<Id>, main: Id, root: seq<Id>, p: nat, i: nat,
                   strt: seq<seq<Id>>, c: nat, open: map<Id, seq<Id>>, o: Id, b: Body)
    requires h.Keys == m.Keys && White(w) && OpenNotBlack(h, m) && KindsOk(h, fixed, main) && o !in h && p <= |root|
    requires o !in open
    ensures OpenNotBlack(h[o := b], m[o := w])
    ensures AllWhite(m, w) ==> AllWhite(m[o := w], w)
    ensures Buckets(m, strt, c, w) ==> Buckets(m[o := w], strt, c, w)
    ensures Prefix(m, open, root, i, w) ==>
              Prefix(m[o := w], WithList(open, o, b), InsertAt(root, p, o), Shifted(i, p), w)
  {
    var k := m[o := w];
    if Prefix(m, open, root, i, w) {
      var r := InsertAt(root, p, o);
      var j := Shifted(i, p);
      var after := WithList(open, o, b);
      forall l | 0 <= l < j ensures r[l] in k && k[r[l]] == w {
        if l != p { assert r[l] == root[if l < p then l else l - 1]; }
      }
      forall l | 0 <= l < j && r[l] in after ensures Whitened(k, after[r[l]], |after[r[l]]|, w) {
        if l != p {
          assert r[l] == root[if l < p then l else l - 1];
          assert r[l] in m && r[l] != o;
          assert Whitened(m, open[r[l]], |open[r[l]]|, w);
        }
      }
    }
  }

  lemma OwnedNewString(h: Heap, root: seq<Id>, strt: seq<seq<Id>>, open: map<Id, seq<Id>>, uvhead: seq<Id>, o: Id, b: Body)
    requires Owned(h, root, strt, open, uvhead, {}) && o !in h && b.Str?
    ensures |strt| > 0 && forall u :: u in h && h[u].OpenUpval? ==> h[u].thread != o
    ensures var k := b.hash % |strt|;
            Owned(h[o := b], root, strt[k := [o] + strt[k]], open, uvhead, {})
  {
    var k := b.hash % |strt|;
    assert OpenLists(h[o := b], open, uvhead) by {
      forall t | t in open ensures OpenList(h[o := b], t, open[t]) {
        assert OpenList(h, t, open[t]);
      }
    }
    StringTableNewString(h, strt, o, b);
    assert RootList(h[o := b], root, {});
  }

  lemma StringTableNewString(h: Heap, strt: seq<seq<Id>>, o: Id, b: Body)
    requires StringTable(h, strt) && o !in h && b.Str?
    ensures StringTable(h[o := b], strt[b.hash % |strt| := [o] + strt[b.hash % |strt|]])
  {
    var k := b.hash % |strt|;
    var after := strt[k := [o] + strt[k]];
    forall c, x | 0 <= c < |after| && x in after[c]
      ensures x in h[o := b] && h[o := b][x].Str? && h[o := b][x].hash % |after| == c
    {
      assert x == o || x in strt[c];
    }
    forall c | 0 <= c < |after| ensures Distinct(after[c]) {
      assert Distinct(strt[c]);
      assert o !in strt[c];
    }
  }

  lemma OpenListInsert(h: Heap, t: Id, s: seq<Id>, i: nat, u: Id, level: nat)
    requires OpenList(h, t, s) && i <= |s| && u !in h && level < |h[t].stack|
    requires Above(h, s, i, level) && BelowAt(h, s, i, level)
    ensures OpenList(h[u := OpenUpval(t, level)], t, InsertAt(s, i, u))
  {
    var n := h[u := OpenUpval(t, level)];
    var r := InsertAt(s, i, u);
    forall x | x in r
      ensures x in n && n[x].OpenUpval? && n[x].thread == t && n[x].level < |n[t].stack|
    {
      assert x == u || x in s;
    }
    forall j, k | 0 <= j < k < |r| ensures n[r[j]].level > n[r[k]].level {
      if j != i { assert r[j] == s[if j < i then j else j - 1]; }
      if k != i { assert r[k] == s[if k < i then k else k - 1]; }
      if j == i && k > i + 1 { assert h[s[i]].level > h[s[k - 1]].level; }
    }
  }

  lemma OwnedNewUpval(h: Heap, root: seq<Id>, strt: seq<seq<Id>>, open: map<Id, seq<Id>>, uvhead: seq<Id>,
                      t: Id, i: nat, u: Id, level: nat)
    requires Owned(h, root, strt, open, uvhead, {}) && t in open && i <= |open[t]| && u !in h
    requires t in h && h[t].Thread? && level < |h[t].stack|
    requires OpenList(h[u := OpenUpval(t, level)], t, InsertAt(open[t], i, u))
    ensures forall x :: x in h && h[x].OpenUpval? ==> h[x].thread != u
    ensures Owned(h[u := OpenUpval(t, level)], root, strt, open[t := InsertAt(open[t], i, u)], [u] + uvhead, {})
  {
    hide InsertAt;
    var n := h[u := OpenUpval(t, level)];
    var after := open[t := InsertAt(open[t], i, u)];
    InsertFacts(open[t], i, u);
    forall s | s in after ensures OpenList(n, s, after[s]) {
      assert OpenList(h, s, open[s]);
    }
    forall x | x in h && h[x].OpenUpval? ensures h[x].thread != u {
      assert OpenList(h, h[x].thread, open[h[x].thread]);
    }
    assert StringTable(n, strt);
    assert RootList(n, root, {});
  }

  /** A dead string or open upvalue that is handed out again. */
  lemma AliveResurrect(h: Heap, m: Marks, w: Colour, roots: set<Id>, o: Id)
    requires White(w) && h.Keys == m.Keys && Alive(h, m, OtherWhite(w), roots) && o in h
    requires AllAlive(h, m, OtherWhite(w), Refs(h, o))
    ensures Alive(h, m[o := w], OtherWhite(w), roots)
  {
  }

  lemma ColoursMore(m: Marks, w: Colour, open: map<Id, seq<Id>>, root: seq<Id>, i: nat, strt: seq<seq<Id>>, k: nat, o: Id)
    ensures Buckets(m, strt, k, w) ==> Buckets(m[o := w], strt, k, w)
    ensures Prefix(m, open, root, i, w) ==> Prefix(m[o := w], open, root, i, w)
    ensures AllWhite(m, w) ==> AllWhite(m[o := w], w)
  {
  }

  lemma BucketsNewString(m: Marks, w: Colour, strt: seq<seq<Id>>, k: nat, b: nat, o: Id)
    requires b < |strt| && o in m && m[o] == w && Buckets(m, strt, k, w)
    ensures Buckets(m, strt[b := [o] + strt[b]], k, w)
  {
    var after := strt[b := [o] + strt[b]];
    forall c | 0 <= c < k ensures Whitened(m, after[c], |after[c]|, w) {
      assert Whitened(m, strt[c], |strt[c]|, w);
    }
  }

  lemma PrefixNewUpval(m: Marks, w: Colour, open: map<Id, seq<Id>>, root: seq<Id>, k: nat, t: Id, i: nat, u: Id)
    requires t in open && i <= |open[t]| && u in m && m[u] == w && Prefix(m, open, root, k, w)
    ensures Prefix(m, open[t := InsertAt(open[t], i, u)], root, k, w)
  {
    var after := open[t := InsertAt(open[t], i, u)];
    forall j | 0 <= j < k && root[j] in after ensures Whitened(m, after[root[j]], |after[root[j]]|, w) {
      assert Whitened(m, open[root[j]], |open[root[j]]|, w);
      if root[j] == t {
        var r := after[t];
        forall l | 0 <= l < |r| ensures r[l] in m && m[r[l]] == w {
          if l != i { assert r[l] == open[t][if l < i then l else l - 1]; }
        }
      }
    }
  }

  lemma KindsNew(h: Heap, m: Marks, w: Colour, fixed: set<Id>, main: Id, o: Id, b: Body)
    requires h.Keys == m.Keys && White(w) && OpenNotBlack(h, m) && KindsOk(h, fixed, main) && o !in h
    requires b.Str? ==> forall s :: s in h ==> h[s] != b
    ensures OpenNotBlack(h[o := b], m[o := w]) && KindsOk(h[o := b], fixed, main)
    ensures h[o := b].Keys == m[o := w].Keys
  {
  }

  /** Closing an upvalue keeps everything alive. */
  lemma AliveClosedOver(h: Heap, m: Marks, otherWhite: Colour, roots: set<Id>, fixed: set<Id>, main: Id, u: Id, v: Value)
    requires h.Keys == m.Keys && Alive(h, m, otherWhite, roots) && u in h && h[u].OpenUpval?
    requires v == Slot(h, h[u].thread, h[u].level) && KindsOk(h, fixed, main)
    ensures Alive(ClosedOver(h, u, v), m, otherWhite, roots) && KindsOk(ClosedOver(h, u, v), fixed, main)
  {
    ClosedOverRefs(h, u, v);
  }

  lemma KeptOne(m: Marks, o: Id, c: Colour)
    requires o in m && !White(c)
    ensures Kept(m, m[o := c])
  {
  }

  lemma SweptThreadKept(h: Heap, m: Marks, n: Heap, k: Marks, w: Colour, fixed: set<Id>, roots: set<Id>, t: Id)
    requires White(w) && Swept(h, m, n, k, w, fixed) && Alive(n, k, OtherWhite(w), roots)
    requires t in roots && t in h && h[t].Thread?
    ensures t in n && n[t].Thread?
  {
  }

  lemma MarkedMore(m: Marks, rs: set<Id>, o: Id, w: Colour)
    requires AllMarked(m, rs) && o !in m
    ensures AllMarked(m[o := w], rs)
  {
  }

  function IndexOf(s: seq<Id>, x: Id): (i: nat)
    ensures i <= |s| && (x in s ==> i < |s| && s[i] == x)
  {
    if s == [] || s[0] == x then 0 else 1 + IndexOf(s[1..], x)
  }

  lemma OwnedLevels(h: Heap, root: seq<Id>, strt: seq<seq<Id>>, open: map<Id, seq<Id>>, uvhead: seq<Id>, t: Id)
    requires Owned(h, root, strt, open, uvhead, {}) && t in h && h[t].Thread?
    ensures t in open && forall u :: u in open[t] && u in h && h[u].OpenUpval? ==> h[u].level < |h[t].stack|
  {
    assert OpenList(h, t, open[t]);
  }

  lemma SweptAllWhite(h: Heap, m: Marks, n: Heap, k: Marks, w: Colour, fixed: set<Id>)
    requires White(w) && Swept(h, m, n, k, w, fixed) && AllWhite(m, w)
    ensures AllWhite(k, w)
  {
  }

  lemma StringRefs(h: Heap, o: Id)
    requires o in h && h[o].Str?
    ensures Refs(h, o) == {}
  {
  }

  lemma AllAliveNone(h: Heap, m: Marks, otherWhite: Colour)
    ensures AllAlive(h, m, otherWhite, {})
  {
  }

  lemma ResurrectColours(h: Heap, m: Marks, w: Colour, o: Id)
    requires White(w) && h.Keys == m.Keys && OpenNotBlack(h, m) && o in h
    ensures OpenNotBlack(h, m[o := w]) && h.Keys == m[o := w].Keys
  {
  }

  /** The value in a slot of a live thread is alive, and so is its new upvalue. */
  lemma SlotAlive(h: Heap, m: Marks, otherWhite: Colour, roots: set<Id>, t: Id, level: nat)
    requires h.Keys == m.Keys && Alive(h, m, otherWhite, roots) && t in h && h[t].Thread? && m[t] != otherWhite
    ensures AllAlive(h, m, otherWhite, ValueIds(Slot(h, t, level)))
    ensures ValueIds(Slot(h, t, level)) <= h.Keys
  {
    if level < |h[t].stack| && h[t].stack[level].Ref? {
      assert h[t].stack[level] in h[t].stack;
      assert h[t].stack[level].id in StackIds(h[t].stack);
      assert h[t].stack[level].id in Refs(h, t);
    }
  }

  lemma NewUpvalRefs(h: Heap, u: Id, t: Id, level: nat)
    requires u !in h && t in h
    ensures Refs(h[u := OpenUpval(t, level)], u) == ValueIds(Slot(h, t, level))
  {
  }

  lemma AllAliveGrew(h: Heap, m: Marks, n: Heap, k: Marks, otherWhite: Colour, s: set<Id>)
    requires AllAlive(h, m, otherWhite, s)
    requires forall o :: o in h && o in m && m[o] != otherWhite ==> o in n && o in k && k[o] != otherWhite
    ensures AllAlive(n, k, otherWhite, s)
  {
  }

  lemma OwnedOpenList(h: Heap, root: seq<Id>, strt: seq<seq<Id>>, open: map<Id, seq<Id>>, uvhead: seq<Id>, t: Id)
    requires Owned(h, root, strt, open, uvhead, {}) && t in open
    ensures OpenList(h, t, open[t])
  {
  }

  /** What each phase of a collection keeps of the colours and the lists. */
  ghost predicate InPhase(p: Phase, h: Heap, m: Marks, w: Colour, gray: seq<Id>, again: seq<Id>, main: Id, registry: Id,
                          sweepgc: nat, root: seq<Id>, open: map<Id, seq<Id>>, sweepstrgc: nat, strt: seq<seq<Id>>)
  {
    match p
    case Pause => AllWhite(m, w)
    case Propagate => Marking(h, m, w, gray, again, {}, h.Keys, h.Keys) && AllMarked(m, {main, registry})
    case SweepString => sweepgc == 0 && sweepstrgc < |strt| && Buckets(m, strt, sweepstrgc, w)
    case Sweep => Buckets(m, strt, |strt|, w) && Prefix(m, open, root, sweepgc, w)
    case Finalize => AllWhite(m, w)
  }

  /** A new object at place `p` of the root list. */
  lemma InPhaseLinked(q: Phase, h: Heap, m: Marks, w: Colour, gray: seq<Id>, again: seq<Id>, main: Id, registry: Id,
                      sweepgc: nat, root: seq<Id>, open: map<Id, seq<Id>>, sweepstrgc: nat, strt: seq<seq<Id>>,
                      o: Id, b: Body, p: nat, fixed: set<Id>)
    requires InPhase(q, h, m, w, gray, again, main, registry, sweepgc, root, open, sweepstrgc, strt)
    requires h.Keys == m.Keys && White(w) && OpenNotBlack(h, m) && KindsOk(h, fixed, main) && o !in h
    requires p <= |root| && o !in open && Refs(h[o := b], o) <= h.Keys
    requires forall u :: u in h && h[u].OpenUpval? ==> h[u].thread != o
    ensures InPhase(q, h[o := b], m[o := w], w, gray, again, main, registry, Shifted(sweepgc, p),
                    InsertAt(root, p, o), WithList(open, o, b), sweepstrgc, strt)
  {
    hide Marking, AllMarked, AllWhite, Buckets, Prefix, Refs, InsertAt, OpenNotBlack, KindsOk, Shifted, WithList;
    match q {
      case Propagate =>
        MarkingNew(h, m, w, gray, again, o, b);
        MarkedMore(m, {main, registry}, o, w);
      case SweepString =>
        InsertLength(root, p, o);
        ColoursNew(h, m, w, fixed, main, root, p, sweepgc, strt, sweepstrgc, open, o, b);
      case _ => ColoursNew(h, m, w, fixed, main, root, p, sweepgc, strt, |strt|, open, o, b);
    }
  }

  /** A new string in its bucket. */
  lemma InPhaseString(q: Phase, h: Heap, m: Marks, w: Colour, gray: seq<Id>, again: seq<Id>, main: Id, registry: Id,
                      sweepgc: nat, root: seq<Id>, open: map<Id, seq<Id>>, sweepstrgc: nat, strt: seq<seq<Id>>, o: Id, b: Body)
    requires InPhase(q, h, m, w, gray, again, main, registry, sweepgc, root, open, sweepstrgc, strt)
    requires h.Keys == m.Keys && White(w) && o !in h && b.Str? && |strt| > 0
    requires forall u :: u in h && h[u].OpenUpval? ==> h[u].thread != o
    ensures InPhase(q, h[o := b], m[o := w], w, gray, again, main, registry, sweepgc, root, open, sweepstrgc,
                    strt[b.hash % |strt| := [o] + strt[b.hash % |strt|]])
  {
    hide Marking, AllMarked, AllWhite, Buckets, Prefix, Refs;
    StringRefs(h[o := b], o);
    var c := if q == SweepString then sweepstrgc else |strt|;
    ColoursMore(m, w, open, root, sweepgc, strt, c, o);
    if q == Propagate {
      MarkingNew(h, m, w, gray, again, o, b);
      MarkedMore(m, {main, registry}, o, w);
    } else if q == SweepString || q == Sweep {
      BucketsNewString(m[o := w], w, strt, c, b.hash % |strt|, o);
    }
  }

  /** A new open upvalue in the list of its thread. */
  lemma InPhaseUpval(q: Phase, h: Heap, m: Marks, w: Colour, gray: seq<Id>, again: seq<Id>, main: Id, registry: Id,
                     sweepgc: nat, root: seq<Id>, open: map<Id, seq<Id>>, sweepstrgc: nat, strt: seq<seq<Id>>,
                     t: Id, i: nat, u: Id, b: Body)
    requires InPhase(q, h, m, w, gray, again, main, registry, sweepgc, root, open, sweepstrgc, strt)
    requires h.Keys == m.Keys && White(w) && u !in h && t in open && i <= |open[t]| && Refs(h[u := b], u) <= h.Keys
    requires forall x :: x in h && h[x].OpenUpval? ==> h[x].thread != u
    ensures InPhase(q, h[u := b], m[u := w], w, gray, again, main, registry, sweepgc, root,
                    open[t := InsertAt(open[t], i, u)], sweepstrgc, strt)
  {
    hide Marking, AllMarked, AllWhite, Buckets, Prefix, Refs, InsertAt;
    var c := if q == SweepString then sweepstrgc else |strt|;
    ColoursMore(m, w, open, root, sweepgc, strt, c, u);
    if q == Propagate {
      MarkingNew(h, m, w, gray, again, u, b);
      MarkedMore(m, {main, registry}, u, w);
    } else if q == Sweep {
      PrefixNewUpval(m[u := w], w, open, root, sweepgc, t, i, u);
    }
  }

  /** The open upvalues in `s` before `i` are above `level`, the one at `i` below. */
  ghost predicate Above(h: Heap, s: seq<Id>, i: nat, level: nat) {
    i <= |s| && forall j :: 0 <= j < i ==> s[j] in h && h[s[j]].OpenUpval? && h[s[j]].level > level
  }

  ghost predicate BelowAt(h: Heap, s: seq<Id>, i: nat, level: nat) {
    i < |s| ==> s[i] in h && h[s[i]].OpenUpval? && h[s[i]].level < level
  }

  /** What every step of collector and mutator keeps: the lists own the heap,
      nothing that is not dead holds anything dead, and the phase's colours. */
  ghost predicate Consistent(q: Phase, h: Heap, m: Marks, w: Colour, fixed: set<Id>, gray: seq<Id>, again: seq<Id>,
                             main: Id, registry: Id, running: Id, roots: set<Id>,
                             sweepgc: nat, root: seq<Id>, open: map<Id, seq<Id>>, uvhead: seq<Id>,
                             sweepstrgc: nat, strt: seq<seq<Id>>)
  {
    && h.Keys == m.Keys && White(w) && sweepgc <= |root|
    && Owned(h, root, strt, open, uvhead, {})
    && OpenNotBlack(h, m) && KindsOk(h, fixed, main) && main in fixed
    && Alive(h, m, OtherWhite(w), roots)
    && running in h && h[running].Thread?
    && InPhase(q, h, m, w, gray, again, main, registry, sweepgc, root, open, sweepstrgc, strt)
  }

  lemma ConsistentLinked(q: Phase, h: Heap, m: Marks, w: Colour, fixed: set<Id>, gray: seq<Id>, again: seq<Id>,
                         main: Id, registry: Id, running: Id, roots: set<Id>,
                         sweepgc: nat, root: seq<Id>, open: map<Id, seq<Id>>, uvhead: seq<Id>,
                         sweepstrgc: nat, strt: seq<seq<Id>>, o: Id, b: Body, p: nat)
    requires Consistent(q, h, m, w, fixed, gray, again, main, registry, running, roots,
                        sweepgc, root, open, uvhead, sweepstrgc, strt)
    requires o !in h && (Plain(b) || b.Thread?) && p <= |root| && White(w)
    requires AllAlive(h, m, OtherWhite(w), Refs(h[o := b], o)) && Refs(h[o := b], o) <= h.Keys
    ensures Consistent(q, h[o := b], m[o := w], w, fixed, gray, again, main, registry, running, roots,
                       Shifted(sweepgc, p), InsertAt(root, p, o), WithList(open, o, b), uvhead, sweepstrgc, strt)
  {
    hide InPhase, Owned, Alive, OpenNotBlack, KindsOk, Refs, AllAlive, InsertAt, Shifted, WithList;
    OwnedNew(h, root, strt, open, uvhead, o, b, p);
    AliveNew(h, m, w, roots, o, b);
    KindsNew(h, m, w, fixed, main, o, b);
    InPhaseLinked(q, h, m, w, gray, again, main, registry, sweepgc, root, open, sweepstrgc, strt, o, b, p, fixed);
    InsertLength(root, p, o);
  }

  lemma InPhaseSwept(q: Phase, h: Heap, m: Marks, n: Heap, k: Marks, w: Colour, fixed: set<Id>,
                     gray: seq<Id>, again: seq<Id>, main: Id, registry: Id,
                     sweepgc: nat, root: seq<Id>, open: map<Id, seq<Id>>, i: nat, after: seq<Id>, open': map<Id, seq<Id>>,
                     sweepstrgc: nat, strt: seq<seq<Id>>, uvhead: seq<Id>)
    requires q != Propagate && White(w) && Swept(h, m, n, k, w, fixed) && Owned(n, after, strt, open', uvhead, {})
    requires InPhase(q, h, m, w, gray, again, main, registry, sweepgc, root, open, sweepstrgc, strt)
    requires sweepgc == 0 ==> i == 0
    requires Prefix(m, open, root, sweepgc, w) ==> Prefix(k, open', after, i, w)
    ensures InPhase(q, n, k, w, gray, again, main, registry, i, after, open', sweepstrgc, strt)
  {
    hide Swept, Owned, Prefix, Buckets, AllWhite;
    match q {
      case SweepString => BucketsKept(h, m, n, k, w, fixed, after, strt, open', uvhead, sweepstrgc);
      case Sweep => BucketsKept(h, m, n, k, w, fixed, after, strt, open', uvhead, |strt|);
      case _ => SweptAllWhite(h, m, n, k, w, fixed);
    }
  }

  lemma FuncRefs(h: Heap, o: Id, refs: seq<Id>)
    ensures Refs(h[o := Func(refs)], o) == Ids(refs)
  {
  }

  lemma AllAliveBoth(h: Heap, m: Marks, otherWhite: Colour, refs: seq<Id>, ups: seq<Id>)
    requires AllAlive(h, m, otherWhite, Ids(refs)) && AllAlive(h, m, otherWhite, Ids(ups))
    ensures AllAlive(h, m, otherWhite, Ids(refs + ups)) && Ids(refs + ups) <= h.Keys
  {
  }

  lemma DistinctAt(s: seq<Id>, i: nat)
    requires Distinct(s) && i < |s|
    ensures forall j :: 0 <= j < |s| && j != i ==> s[j] != s[i]
    ensures s[i] in s
  {
  }

  lemma ClosedOverKeys(h: Heap, u: Id, v: Value, t: Id)
    requires u in h && h[u].OpenUpval? && t in h && h[t].Thread?
    ensures ClosedOver(h, u, v).Keys == h.Keys && ClosedOver(h, u, v)[t] == h[t]
  {
  }

  lemma IdsNone()
    ensures Ids([]) == {}
  {
  }

  lemma AllAliveOne(h: Heap, m: Marks, otherWhite: Colour, ups: seq<Id>, u: Id)
    requires AllAlive(h, m, otherWhite, Ids(ups)) && u in h && u in m && m[u] != otherWhite
    ensures AllAlive(h, m, otherWhite, Ids(ups + [u]))
  {
  }

  lemma InitialHeap(h: Heap, m: Marks, strt: seq<seq<Id>>)
    requires h == map[0 := Thread([], 1), 1 := Tab([]), 2 := Tab([])]
    requires m == map[0 := White0, 1 := White0, 2 := White0]
    requires |strt| > 0 && forall b :: 0 <= b < |strt| ==> strt[b] == []
    ensures Owned(h, [2, 1, 0], strt, map[0 := []], [], {})
    ensures OpenNotBlack(h, m) && KindsOk(h, {0}, 0) && AllWhite(m, White0)
    ensures Alive(h, m, White1, {0, 2, 0} + Ids([]))
  {
    assert StackIds([]) == {};
    assert Ids([]) == {};
    assert Refs(h, 0) == {1} && Refs(h, 1) == {} && Refs(h, 2) == {};
    assert RootList(h, [2, 1, 0], {}) by {
      assert forall o :: o in [2, 1, 0] <==> o == 0 || o == 1 || o == 2;
    }
    assert OpenList(h, 0, []);
  }
}
