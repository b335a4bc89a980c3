/** The in-place computation of minimum-redundancy code lengths: one array that
    holds weights, then parents, then inner depths, then leaf depths. */
module HuffmanDepths {
  import opened HuffmanCode
  import opened HuffmanMerging

  const U16: nat := 65536

  /** Parents of the inner nodes 0 .. n-3: larger than the node, in order, and
      none named three times. The root is n-2. */
  ghost predicate Parents(p: seq<nat>, upto: nat, top: nat) {
    && upto <= |p|
    && (forall i :: 0 <= i < upto ==> i < p[i] < top)
    && (forall i, j :: 0 <= i <= j < upto ==> p[i] <= p[j])
    && (forall i, j :: 0 <= i && i + 2 == j && j < upto ==> p[i] < p[j])
  }

  predicate Sorted(w: seq<nat>) { forall i, j :: 0 <= i <= j < |w| ==> w[i] <= w[j] }

  /** Weights and larger child weights of the inner nodes made so far, for
      weights that do not overflow: what is picked never gets lighter, so a
      parent outweighs its child by at least the child's heavier child. */
  datatype History = History(w: seq<nat>, h: seq<nat>)

  ghost predicate Heavy(g: History, p: seq<nat>, upto: nat) {
    && |g.w| == |g.h|
    && (forall i :: 0 <= i < |g.w| ==> g.w[i] >= 2 && 1 <= g.h[i] <= g.w[i] <= 2 * g.h[i])
    && (forall i :: 0 <= i < upto ==> HeavyAt(g, p, i))
  }

  predicate HeavyAt(g: History, p: seq<nat>, i: nat) {
    && i < |p| && i < |g.w| == |g.h| && p[i] < |g.w|
    && g.w[p[i]] >= g.w[i] + g.h[i] && g.h[p[i]] >= g.w[i]
  }

  /** The items not picked yet: inner nodes from `root` to `next`, leaves from
      `leaf`; none is lighter than `x`, and `held` has been picked of them. */
  ghost predicate Left(a: seq<nat>, orig: seq<nat>, g: History, root: nat, next: nat, leaf: nat, x: nat, held: nat) {
    && |a| == |orig| && |g.w| == |g.h| == next && root <= next < leaf <= |a| && Sorted(g.w) && Sorted(orig)
    && (forall i :: root <= i < next ==> a[i] == g.w[i])
    && (forall i :: leaf <= i < |a| ==> a[i] == orig[i])
    && (forall i :: 0 <= i < next ==> g.h[i] <= x)
    && (forall i :: root <= i < next ==> x <= g.w[i])
    && (forall i :: leaf <= i < |orig| ==> x <= orig[i])
    && Sum(g.w[root..]) + Sum(orig[leaf..]) + held == Sum(orig)
  }

  ghost predicate Weighable(orig: seq<nat>) {
    Sorted(orig) && Sum(orig) < U16 && forall i :: 0 <= i < |orig| ==> orig[i] >= 1
  }

  /** Picking the lightest inner node. */
  lemma PickRoot(a: seq<nat>, b: seq<nat>, orig: seq<nat>, g: History, root: nat, next: nat, leaf: nat, x: nat, held: nat)
    requires Left(a, orig, g, root, next, leaf, x, held) && root < next
    requires leaf < |a| ==> a[root] < a[leaf]
    requires |b| == |a| && forall i :: 0 <= i < |a| && i != root && i != next ==> b[i] == a[i]
    ensures Left(b, orig, g, root + 1, next, leaf, a[root], held + a[root]) && x <= a[root]
  {
    SumFrom(g.w, root);
  }

  /** Picking the lightest leaf. */
  lemma PickLeaf(a: seq<nat>, b: seq<nat>, orig: seq<nat>, g: History, root: nat, next: nat, leaf: nat, x: nat, held: nat)
    requires Left(a, orig, g, root, next, leaf, x, held) && leaf < |a|
    requires root < next ==> a[leaf] <= a[root]
    requires |b| == |a| && forall i :: 0 <= i < |a| && i != next ==> b[i] == a[i]
    ensures Left(b, orig, g, root, next, leaf + 1, a[leaf], held + a[leaf]) && x <= a[leaf]
  {
    SumFrom(orig, leaf);
  }

  /** The two items picked make a new inner node. */
  lemma Merge(a: seq<nat>, orig: seq<nat>, g: History, p: seq<nat>, root: nat, next: nat, leaf: nat, p1: nat, p2: nat)
    requires Left(a, orig, g, root, next, leaf, p2, p1 + p2) && next + 1 < leaf && a[next] == p1 + p2
    requires 1 <= p1 <= p2 && (forall i :: 0 <= i < next ==> g.h[i] <= p1)
    requires forall i :: 0 <= i < next ==> g.w[i] <= 2 * g.h[i]
    ensures Left(a, orig, History(g.w + [p1 + p2], g.h + [p2]), root, next + 1, leaf, p2, 0)
  {
    hide Sorted, Sum;
    SumMore(g.w[root..], p1 + p2);
    assert (g.w + [p1 + p2])[root..] == g.w[root..] + [p1 + p2];
    SortedMore(g.w, p1 + p2);
  }

  lemma SortedMore(w: seq<nat>, x: nat)
    requires Sorted(w) && forall i :: 0 <= i < |w| ==> w[i] <= x
    ensures Sorted(w + [x])
  {
  }

  /** The children of the new node are the items picked. */
  lemma MergeHeavy(a: seq<nat>, b: seq<nat>, g: History, root: nat, root': nat, next: nat, p1: nat, p2: nat)
    requires Heavy(g, a, root) && |g.w| == next && root <= root' <= next && |a| == |b| && next < |a|
    requires 1 <= p1 <= p2 && (forall i :: 0 <= i < next ==> g.h[i] <= p1)
    requires forall i :: 0 <= i < root ==> b[i] == a[i]
    requires forall i :: root <= i < root' ==> b[i] == next && (g.w[i] == p1 || g.w[i] == p2)
    ensures Heavy(History(g.w + [p1 + p2], g.h + [p2]), b, root')
  {
    var g' := History(g.w + [p1 + p2], g.h + [p2]);
    forall i | 0 <= i < root'
      ensures HeavyAt(g', b, i)
    {
      if i < root { assert HeavyAt(g, a, i); }
    }
  }

  function Wrap16(x: nat): nat { x % U16 }

  /** Where the two queues stand: between them they hold `next` items fewer than there were leaves. */
  predicate Queued(n: nat, root: nat, next: nat, leaf: nat) {
    1 <= next <= n - 2 && root < next && leaf == 2 * next - root && leaf <= n
  }

  /** What picking one item does to the queues and the array. */
  ghost predicate Picked(was: seq<nat>, now: seq<nat>, root: nat, root': nat, next: nat, leaf: nat, leaf': nat, p: nat) {
    && |now| == |was| && root <= root' && leaf <= leaf' && (root' - root) + (leaf' - leaf) == 1
    && root < |was| && next < |was| && next != root
    && (root' > root ==> p == was[root] && now[root] == next)
    && (root' == root ==> leaf < |was| && p == was[leaf] && now[root] == was[root])
    && forall i :: 0 <= i < |now| && i != root && i != next ==> now[i] == was[i]
  }

  lemma PickedLeft(was: seq<nat>, now: seq<nat>, orig: seq<nat>, g: History, root: nat, root': nat, next: nat,
                   leaf: nat, leaf': nat, x: nat, held: nat, p: nat)
    requires Left(was, orig, g, root, next, leaf, x, held) && Picked(was, now, root, root', next, leaf, leaf', p)
    requires root' > root ==> root < next && (leaf < |was| ==> was[root] < was[leaf])
    requires root' == root && root < next ==> was[leaf] <= was[root]
    ensures Left(now, orig, g, root', next, leaf', p, held + p) && x <= p && (root' > root ==> p == g.w[root])
    ensures held + p <= Sum(orig)
  {
    if root' > root {
      PickRoot(was, now, orig, g, root, next, leaf, x, held);
    } else {
      PickLeaf(was, now, orig, g, root, next, leaf, x, held);
    }
  }

  /** The first of two picks goes to the slot of the new node. */
  method FirstPick(a: array<nat>, root: nat, next: nat, leaf: nat) returns (root': nat, leaf': nat)
    requires root < next < leaf <= a.Length
    modifies a
    ensures Picked(old(a[..]), a[..], root, root', next, leaf, leaf', a[next])
    ensures root' > root ==> leaf < a.Length ==> old(a[root]) < old(a[leaf])
    ensures root' == root ==> old(a[leaf]) <= old(a[root])
  {
    root', leaf' := root, leaf;
    if leaf >= a.Length || a[root] < a[leaf] {
      a[next] := a[root];
      a[root] := next;
      root' := root + 1;
    } else {
      a[next] := a[leaf];
      leaf' := leaf + 1;
    }
  }

  /** The second is added to it. */
  method SecondPick(a: array<nat>, root: nat, next: nat, leaf: nat) returns (root': nat, leaf': nat, ghost p: nat)
    requires root <= next < leaf <= a.Length && (leaf == a.Length ==> root < next)
    modifies a
    ensures root == next ==> root' == root
    ensures root < next ==> Picked(old(a[..]), a[..], root, root', next, leaf, leaf', p)
    ensures root == next ==> leaf' == leaf + 1 && p == old(a[leaf]) && a[..] == old(a[..])[next := a[next]]
    ensures root' > root ==> leaf < a.Length ==> old(a[root]) < old(a[leaf])
    ensures root' == root && root < next ==> old(a[leaf]) <= old(a[root])
    ensures a[next] == Wrap16(old(a[next]) + p)
  {
    root', leaf' := root, leaf;
    if leaf >= a.Length || (root < next && a[root] < a[leaf]) {
      p := a[root];
      a[next] := Wrap16(a[next] + a[root]);
      a[root] := next;
      root' := root + 1;
    } else {
      p := a[leaf];
      a[next] := Wrap16(a[next] + a[leaf]);
      leaf' := leaf + 1;
    }
  }

  ghost predicate Tracked(a: seq<nat>, orig: seq<nat>, g: History, root: nat, next: nat, leaf: nat) {
    next >= 1 && |g.h| == next && Left(a, orig, g, root, next, leaf, g.h[next - 1], 0) && Heavy(g, a, root)
  }

  /** Which inner nodes each node was made of, as the parents say it. */
  ghost predicate Linked(p: seq<nat>, r: seq<nat>, n: nat, upto: nat) {
    Trace(r, n) && forall i :: 0 <= i < upto ==> LinkedAt(p, r, i)
  }

  predicate LinkedAt(p: seq<nat>, r: seq<nat>, i: nat) {
    i < |p| && p[i] + 1 < |r| && r[p[i]] <= i < r[p[i] + 1]
  }

  lemma LinkedMore(a: seq<nat>, b: seq<nat>, r: seq<nat>, root: nat, root': nat, next: nat)
    requires Linked(a, r, |a|, root) && |r| == next + 1 && r[next] == root && |a| == |b| && next < |a| - 1
    requires root <= root' <= root + 2 && root' <= next && 2 * (next + 1) - root' <= |a|
    requires forall i :: 0 <= i < root ==> b[i] == a[i]
    requires forall i :: root <= i < root' ==> b[i] == next
    ensures Linked(b, r + [root'], |b|, root')
  {
    var r' := r + [root'];
    forall i | 0 <= i < root'
      ensures LinkedAt(b, r', i)
    {
      if i < root { assert LinkedAt(a, r, i); }
    }
    forall k, l | 0 <= k && l == k + 1 && l < |r'|
      ensures r'[k] <= r'[l] <= r'[k] + 2 && r'[l] <= k
    {
      if l < |r| { assert r[k] <= r[l] <= r[k] + 2 && r[l] <= k; }
    }
  }

  /** What was made before stays made. */
  lemma MadeStill(orig: seq<nat>, w: seq<nat>, r: seq<nat>, x: nat, y: nat, k: nat)
    requires Made(orig, w, r) && k < |w|
    ensures MadeAt(orig, w + [x], r + [y], k)
  {
    assert MadeAt(orig, w, r, k);
    assert Forest(orig, w + [x], r + [y], k) == Forest(orig, w, r, k);
  }

  lemma MadeMore(orig: seq<nat>, w: seq<nat>, r: seq<nat>, x: nat, y: nat)
    requires Made(orig, w, r) && Trace(r + [y], |orig|) && MadeAt(orig, w + [x], r + [y], |w|)
    ensures Made(orig, w + [x], r + [y])
  {
    forall k | 0 <= k < |w| + 1
      ensures MadeAt(orig, w + [x], r + [y], k)
    {
      if k < |w| { MadeStill(orig, w, r, x, y, k); }
    }
  }

  /** In front of the two queues are the two lightest items, whose weights add up to `x`. */
  ghost predicate InFront(orig: seq<nat>, w: seq<nat>, root: nat, root': nat, leaf: nat, x: nat) {
    && root < |w| && root <= root' && Sorted(w) && Sorted(orig)
    && (if root' == root + 2 then
         root + 1 < |w| && x == w[root] + w[root + 1] && (leaf < |orig| ==> w[root + 1] <= orig[leaf])
       else if root' == root then
         leaf + 1 < |orig| && x == orig[leaf] + orig[leaf + 1] && orig[leaf + 1] <= w[root]
       else
         && root' == root + 1 && leaf < |orig| && x == w[root] + orig[leaf]
         && (leaf + 1 < |orig| ==> w[root] <= orig[leaf + 1]) && (root + 1 < |w| ==> orig[leaf] <= w[root + 1]))
  }

  lemma PickedInFront(s0: seq<nat>, s1: seq<nat>, s2: seq<nat>, orig: seq<nat>, g: History, r0: nat, r1: nat, r2: nat,
                      next: nat, l0: nat, l1: nat, l2: nat, x: nat, p1: nat, p2: nat)
    requires Left(s0, orig, g, r0, next, l0, x, 0) && r0 < next && r1 <= next
    requires Picked(s0, s1, r0, r1, next, l0, l1, p1) && PickedSecond(s1, s2, r1, r2, next, l1, l2, p2)
    requires r1 > r0 ==> l0 < |s0| ==> s0[r0] < s0[l0]
    requires r1 == r0 ==> s0[l0] <= s0[r0]
    requires r2 > r1 ==> l1 < |s1| ==> s1[r1] < s1[l1]
    requires r2 == r1 && r1 < next ==> s1[l1] <= s1[r1]
    ensures InFront(orig, g.w, r0, r2, l0, p1 + p2)
  {
    hide Sum;
  }

  /** The next node is made of two lightest items. */
  lemma FrontLightest(orig: seq<nat>, w: seq<nat>, r: seq<nat>, root: nat, root': nat, leaf: nat, next: nat, x: nat)
    requires InFront(orig, w, root, root', leaf, x) && |w| == next < |orig| - 1 && leaf == 2 * next - root
    requires |r| == next + 1 && r[next] == root
    ensures MadeAt(orig, w + [x], r + [root'], next)
  {
    var w', r', n := w + [x], r + [root'], |orig|;
    assert r'[next] == root && r'[next + 1] == root' && LeafAt(r', next) == leaf;
    var s, i, j := Forest(orig, w', r', next), One(r', n, next), Other(r', n, next);
    assert i >= 0 && j >= 0 && s[i].Item? && s[j].Item? && x == s[i].weight + s[j].weight;
    forall k | 0 <= k < |s| && k != i && k != j && s[k].Item?
      ensures s[i].weight <= s[k].weight && s[j].weight <= s[k].weight
    {
    }
  }

  lemma ParentsMore(a: seq<nat>, b: seq<nat>, root: nat, root': nat, next: nat)
    requires Parents(a, root, next) && root <= root' <= root + 2 && root' <= next && |a| == |b| && next < |a|
    requires forall i :: 0 <= i < root ==> b[i] == a[i]
    requires forall i :: root <= i < root' ==> b[i] == next
    ensures Parents(b, root', next + 1)
  {
  }

  /** For weights that do not overflow: the history is one of merging two lightest items. */
  ghost predicate Merging(a: seq<nat>, orig: seq<nat>, g: History, r: seq<nat>, root: nat, next: nat, leaf: nat) {
    Tracked(a, orig, g, root, next, leaf) && Made(orig, g.w, r)
  }

  /** One turn of the first phase: the two lightest items get a parent. */
  method Pair(a: array<nat>, root: nat, next: nat, leaf: nat, ghost orig: seq<nat>, ghost g: History, ghost r: seq<nat>)
    returns (root': nat, leaf': nat, ghost g': History)
    requires a.Length == |orig| && Queued(a.Length, root, next, leaf) && Parents(a[..], root, next)
    requires Linked(a[..], r, a.Length, root) && |r| == next + 1 && r[next] == root
    requires Weighable(orig) ==> Merging(a[..], orig, g, r, root, next, leaf)
    modifies a
    ensures root <= root' <= next && leaf' == 2 * (next + 1) - root' && leaf' <= a.Length
    ensures Parents(a[..], root', next + 1) && Linked(a[..], r + [root'], a.Length, root')
    ensures Weighable(orig) ==> Merging(a[..], orig, g', r + [root'], root', next + 1, leaf')
  {
    hide Heavy, Left, Parents, Sorted, Weighable, Picked, Tracked, Merging, Linked, Made;
    ghost var s0 := a[..];
    g' := g;
    root', leaf' := FirstPick(a, root, next, leaf);
    ghost var s1, r1, l1, p1 := a[..], root', leaf', a[next];
    PickedMoves(s0, s1, root, r1, next, leaf, l1, p1);
    ghost var p2;
    root', leaf', p2 := SecondPick(a, root', next, leaf');
    ghost var s2 := a[..];
    PickedTwice(s0, s1, s2, root, r1, root', next, leaf, l1, leaf', p1, p2);
    ParentsMore(s0, s2, root, root', next);
    LinkedMore(s0, s2, r, root, root', next);
    if Weighable(orig) {
      g' := History(g.w + [p1 + p2], g.h + [p2]);
      PairMerging(s0, s1, s2, orig, g, r, root, r1, root', next, leaf, l1, leaf', p1, p2);
    }
  }

  lemma PairMerging(s0: seq<nat>, s1: seq<nat>, s2: seq<nat>, orig: seq<nat>, g: History, r: seq<nat>, r0: nat, r1: nat, r2: nat,
                    next: nat, l0: nat, l1: nat, l2: nat, p1: nat, p2: nat)
    requires Weighable(orig) && Merging(s0, orig, g, r, r0, next, l0) && r0 < next && r1 <= next
    requires Picked(s0, s1, r0, r1, next, l0, l1, p1) && PickedSecond(s1, s2, r1, r2, next, l1, l2, p2)
    requires s1[next] == p1 && s2[next] == Wrap16(p1 + p2) && next + 1 < l2
    requires r1 > r0 ==> l0 < |s0| ==> s0[r0] < s0[l0]
    requires r1 == r0 ==> s0[l0] <= s0[r0]
    requires r2 > r1 ==> l1 < |s1| ==> s1[r1] < s1[l1]
    requires r2 == r1 && r1 < next ==> s1[l1] <= s1[r1]
    requires |r| == next + 1 && r[next] == r0 && l0 == 2 * next - r0 && next < |orig| - 1
    requires Linked(s2, r + [r2], |orig|, r2)
    ensures Merging(s2, orig, History(g.w + [p1 + p2], g.h + [p2]), r + [r2], r2, next + 1, l2)
  {
    hide Heavy, Left, Parents, Sorted, Weighable, Picked, Made, PickedSecond, InFront, MadeAt, Sum;
    var x := g.h[next - 1];
    PairTracked(s0, s1, s2, orig, g, r0, r1, r2, next, l0, l1, l2, p1, p2);
    PickedInFront(s0, s1, s2, orig, g, r0, r1, r2, next, l0, l1, l2, x, p1, p2);
    HeavyLeft(s0, orig, g, s0, r0, next, l0, x);
    FrontLightest(orig, g.w, r, r0, r2, l0, next, p1 + p2);
    MadeMore(orig, g.w, r, p1 + p2, r2);
  }

  lemma PickedMoves(was: seq<nat>, now: seq<nat>, root: nat, root': nat, next: nat, leaf: nat, leaf': nat, p: nat)
    requires Picked(was, now, root, root', next, leaf, leaf', p)
    ensures root <= root' && leaf <= leaf' && (root' - root) + (leaf' - leaf) == 1 && |was| == |now|
  {
  }

  /** The second pick in full: when no inner node is left, the slot of the new
      node is the only one that changes. */
  ghost predicate PickedSecond(s1: seq<nat>, s2: seq<nat>, root: nat, root': nat, next: nat, leaf: nat, leaf': nat, p: nat) {
    if root < next then Picked(s1, s2, root, root', next, leaf, leaf', p)
    else root' == root && leaf' == leaf + 1 && leaf < |s1| && p == s1[leaf] && next < |s1| && |s2| == |s1|
         && s2 == s1[next := s2[next]]
  }

  lemma PickedTwice(s0: seq<nat>, s1: seq<nat>, s2: seq<nat>, r0: nat, r1: nat, r2: nat, next: nat,
                    l0: nat, l1: nat, l2: nat, p1: nat, p2: nat)
    requires Picked(s0, s1, r0, r1, next, l0, l1, p1) && PickedSecond(s1, s2, r1, r2, next, l1, l2, p2)
    requires r0 < next && r1 <= next
    ensures r0 <= r2 <= r0 + 2 && (r2 - r0) + (l2 - l0) == 2 && l0 <= l2 && |s2| == |s0| && next < |s0|
    ensures forall i :: 0 <= i < r0 ==> s2[i] == s0[i]
    ensures forall i :: r0 <= i < r2 && i < next ==> s2[i] == next
    ensures r2 <= next
  {
  }

  lemma PairTracked(s0: seq<nat>, s1: seq<nat>, s2: seq<nat>, orig: seq<nat>, g: History, r0: nat, r1: nat, r2: nat,
                    next: nat, l0: nat, l1: nat, l2: nat, p1: nat, p2: nat)
    requires Weighable(orig) && Tracked(s0, orig, g, r0, next, l0) && r0 < next && r1 <= next
    requires Picked(s0, s1, r0, r1, next, l0, l1, p1) && PickedSecond(s1, s2, r1, r2, next, l1, l2, p2)
    requires s1[next] == p1 && s2[next] == Wrap16(p1 + p2) && next + 1 < l2
    requires r1 > r0 ==> l0 < |s0| ==> s0[r0] < s0[l0]
    requires r1 == r0 ==> s0[l0] <= s0[r0]
    requires r2 > r1 ==> l1 < |s1| ==> s1[r1] < s1[l1]
    requires r2 == r1 && r1 < next ==> s1[l1] <= s1[r1]
    ensures Tracked(s2, orig, History(g.w + [p1 + p2], g.h + [p2]), r2, next + 1, l2)
  {
    hide Left, Picked, Sorted, Heavy, Sum;
    var x := g.h[next - 1];
    PickedMoves(s0, s1, r0, r1, next, l0, l1, p1);
    PickedLeft(s0, s1, orig, g, r0, r1, next, l0, l1, x, 0, p1);
    if r1 < next {
      PickedMoves(s1, s2, r1, r2, next, l1, l2, p2);
      PickedLeft(s1, s2, orig, g, r1, r2, next, l1, l2, p1, p1, p2);
    } else {
      LastLeaf(s1, s2, orig, g, r1, next, l1, p1, p2);
    }
    PickedTwice(s0, s1, s2, r0, r1, r2, next, l0, l1, l2, p1, p2);
    HeavyLeft(s0, orig, g, s0, r0, next, l0, x);
    Merge(s2, orig, g, s2, r2, next, l2, p1, p2);
    MergeHeavy(s0, s2, g, r0, r2, next, p1, p2);
  }

  lemma LastLeaf(s1: seq<nat>, s2: seq<nat>, orig: seq<nat>, g: History, next: nat, same: nat, leaf: nat, p1: nat, p2: nat)
    requires Left(s1, orig, g, next, next, leaf, p1, p1) && same == next && leaf < |s1| && p2 == s1[leaf]
    requires next < |s1| && |s2| == |s1| && s2 == s1[next := s2[next]]
    ensures Left(s2, orig, g, next, next, leaf + 1, p2, p1 + p2) && p1 <= p2 && p1 + p2 <= Sum(orig)
  {
    PickLeaf(s1, s2, orig, g, next, next, leaf, p1, p1);
  }

  lemma HeavyLeft(a: seq<nat>, orig: seq<nat>, g: History, p: seq<nat>, root: nat, next: nat, leaf: nat, x: nat)
    requires Left(a, orig, g, root, next, leaf, x, 0) && Heavy(g, p, root) && next >= 1 && x == g.h[next - 1]
    ensures x >= 1 && |g.w| == |g.h| == next && |a| == |orig|
    ensures forall i :: 0 <= i < next ==> g.h[i] <= x && g.w[i] <= 2 * g.h[i]
  {
  }

  /** The first phase: parents of the inner nodes in place of the weights. */
  method MakeTree(a: array<nat>) returns (ghost g: History, ghost r: seq<nat>)
    requires a.Length >= 2
    modifies a
    ensures Parents(a[..], a.Length - 2, a.Length - 1)
    ensures Linked(a[..], r, a.Length, a.Length - 2) && |r| == a.Length
    ensures Weighable(old(a[..])) ==> Heavy(g, a[..], a.Length - 2) && |g.w| == a.Length - 1
                                      && g.w[a.Length - 2] == Sum(old(a[..])) && Made(old(a[..]), g.w, r)
  {
    hide Heavy, Left, Sorted, Weighable, Sum, Tracked, Merging, Made;
    ghost var orig := a[..];
    var n := a.Length;
    a[0] := Wrap16(a[0] + a[1]);
    g := History([orig[0] + orig[1]], [orig[1]]);
    r := [0, 0];
    if Weighable(orig) { FirstPair(orig, a[..]); }
    var root, leaf, next: nat := 0, 2, 1;
    while next < n - 1
      invariant 1 <= next <= n - 1 && 0 <= root < next && leaf == 2 * next - root && leaf <= n
      invariant Parents(a[..], root, next)
      invariant Linked(a[..], r, n, root) && |r| == next + 1 && r[next] == root
      invariant Weighable(orig) ==> Merging(a[..], orig, g, r, root, next, leaf)
    {
      root, leaf, g := Pair(a, root, next, leaf, orig, g, r);
      r := r + [root];
      next := next + 1;
    }
    if Weighable(orig) { LastItem(a[..], orig, g, r, root, next); }
  }

  lemma FirstPair(orig: seq<nat>, a: seq<nat>)
    requires |orig| >= 2 && Weighable(orig) && a == orig[0 := Wrap16(orig[0] + orig[1])]
    ensures Merging(a, orig, History([orig[0] + orig[1]], [orig[1]]), [0, 0], 0, 1, 2)
  {
    SumFrom(orig, 0);
    SumFrom(orig, 1);
    assert orig[0..] == orig;
    assert [orig[0] + orig[1]][0..] == [orig[0] + orig[1]];
    assert Sum([orig[0] + orig[1]]) == orig[0] + orig[1] by {
      SumMore([], orig[0] + orig[1]);
      assert [] + [orig[0] + orig[1]] == [orig[0] + orig[1]];
    }
    FirstMade(orig);
  }

  lemma FirstMade(orig: seq<nat>)
    requires |orig| >= 2 && Sorted(orig)
    ensures Made(orig, [orig[0] + orig[1]], [0, 0])
  {
    assert MadeAt(orig, [orig[0] + orig[1]], [0, 0], 0);
  }

  lemma LastItem(a: seq<nat>, orig: seq<nat>, g: History, r: seq<nat>, root: nat, next: nat)
    requires Merging(a, orig, g, r, root, next, |a|) && root == next - 1
    ensures |g.w| == next && g.w[next - 1] == Sum(orig) && Heavy(g, a, root) && Made(orig, g.w, r)
  {
    SumFrom(g.w, root);
    assert g.w[next..] == [];
    assert orig[|a|..] == [];
  }

  /** The depth of an inner node; the root is number `top`. */
  function Depth(p: seq<nat>, top: nat, i: nat): (d: nat)
    requires Parents(p, top, top + 1)
    ensures i <= top ==> d <= top - i
    decreases if i < top then top - i else 0
  {
    if i >= top then 0 else 1 + Depth(p, top, p[i])
  }

  lemma {:induction false} DepthOrder(p: seq<nat>, top: nat, i: nat, j: nat)
    requires Parents(p, top, top + 1) && i <= j <= top
    ensures Depth(p, top, i) >= Depth(p, top, j)
    decreases top - i
  {
    if j < top {
      DepthOrder(p, top, p[i], p[j]);
    }
  }

  /** Neighbours differ by one level at most. */
  lemma DepthStep(p: seq<nat>, top: nat, i: nat)
    requires Parents(p, top, top + 1) && i < top
    ensures Depth(p, top, i) <= Depth(p, top, i + 1) + 1
  {
    DepthOrder(p, top, i + 1, p[i]);
  }

  lemma {:induction false} Spread(p: seq<nat>, top: nat, i: nat, k: nat)
    requires Parents(p, top, top + 1) && i + 2 * k < top
    ensures p[i] + k <= p[i + 2 * k]
    decreases k
  {
    if k > 0 {
      Spread(p, top, i, k - 1);
    }
  }

  /** Level `d` is `lo .. hi`, level `d + 1` is `lo2 .. lo - 1`: it has at most
      two nodes for each one above. */
  lemma LevelDoubles(p: seq<nat>, top: nat, d: nat, lo2: nat, lo: nat, hi: nat)
    requires Parents(p, top, top + 1) && lo2 < lo <= hi <= top
    requires forall i :: lo <= i <= hi ==> Depth(p, top, i) == d
    requires forall i :: hi < i <= top ==> Depth(p, top, i) < d
    requires forall i :: lo2 <= i < lo ==> Depth(p, top, i) == d + 1
    ensures lo - lo2 <= 2 * (hi + 1 - lo)
  {
    var k := (lo - 1 - lo2) / 2;
    Spread(p, top, lo2, k);
    var last := lo2 + 2 * k;
    assert Depth(p, top, last) == d + 1 && Depth(p, top, lo2) == d + 1;
    assert Depth(p, top, p[last]) == d && Depth(p, top, p[lo2]) == d;
    assert p[last] <= hi;
    assert lo2 < p[lo2] && Depth(p, top, p[lo2]) != d + 1;
  }

  /** The second phase: depths of the inner nodes in place of the parents. */
  method MakeDepths(a: array<nat>)
    requires a.Length >= 2 && Parents(a[..], a.Length - 2, a.Length - 1)
    modifies a
    ensures forall i :: 0 <= i <= a.Length - 2 ==> a[i] == Depth(old(a[..]), a.Length - 2, i)
  {
    ghost var p, top := a[..], a.Length - 2;
    a[a.Length - 2] := 0;
    var next := a.Length - 3;
    while next >= 0
      invariant -1 <= next <= a.Length - 3
      invariant forall i :: next < i <= top ==> a[i] == Depth(p, top, i)
      invariant forall i :: 0 <= i <= next ==> a[i] == p[i]
    {
      a[next] := a[a[next]] + 1;
      next := next - 1;
    }
  }

  predicate Falling(lens: seq<nat>) { forall i, j :: 0 <= i <= j < |lens| ==> lens[i] >= lens[j] }

  ghost predicate Leaves(lens: seq<nat>, d: nat, most: nat) {
    Falling(lens) && forall i :: 0 <= i < |lens| ==> 1 <= lens[i] < d && lens[i] <= most
  }

  /** The inner nodes up to `root` still have their depths in the array. */
  ghost predicate Unread(a: seq<nat>, p: seq<nat>, top: nat, root: int) {
    && |a| == top + 2 && Parents(p, top, top + 1) && -1 <= root <= top
    && forall i :: 0 <= i <= root ==> a[i] == Depth(p, top, i)
  }

  /** `root` is the first node of level `d` or below; the level above ends at `hi`. */
  ghost predicate Reached(p: seq<nat>, top: nat, root: int, hi: int, d: nat) {
    && Parents(p, top, top + 1) && -1 <= root <= hi <= top
    && (forall i :: 0 <= i <= root ==> d <= Depth(p, top, i))
    && (forall i :: root < i <= top ==> Depth(p, top, i) < d)
    && (if d == 0 then root == top else root < hi)
    && (d > 0 ==> forall i :: root < i <= hi ==> Depth(p, top, i) == d - 1)
    && (forall i :: hi < i <= top ==> Depth(p, top, i) + 1 < d)
  }

  function Places(root: int, hi: int, d: nat): int { if d == 0 then 1 else 2 * (hi - root) }

  /** Leaves are given out from the end; the `avbl` places left at level `d`
      make up what the Kraft sum lacks. */
  ghost predicate Given(tail: seq<nat>, avbl: nat, d: nat, k: nat, depth: nat) {
    && d <= k && Leaves(tail, depth, k)
    && KraftSum(tail, k) + Shl(avbl, k - d) == Pow2(k)
  }

  /** How many nodes a level has, and that none is skipped. */
  lemma NextLevel(p: seq<nat>, top: nat, root: int, hi: int, d: nat, root': int)
    requires Reached(p, top, root, hi, d) && -1 <= root' <= root
    requires forall i :: root' < i <= root ==> Depth(p, top, i) == d
    requires root' >= 0 ==> Depth(p, top, root') != d
    ensures root - root' <= Places(root, hi, d)
    ensures root' == root ==> root == -1
    ensures root' < root ==> Reached(p, top, root', root, d + 1) && d < top + 1
  {
    if root' >= 0 {
      forall i | 0 <= i <= root'
        ensures d + 1 <= Depth(p, top, i)
      {
        DepthOrder(p, top, i, root');
      }
    }
    if d == 0 && root > 0 { assert Depth(p, top, root - 1) > 0; }
    if 0 <= root < top {
      DepthStep(p, top, root);
    }
    if d > 0 && root' < root {
      LevelDoubles(p, top, d - 1, root' + 1, root + 1, hi);
    }
    if root' < root {
      assert Depth(p, top, root) == d <= top - root;
    }
  }

  /** One leaf at level `d`. */
  lemma GiveLeaf(tail: seq<nat>, avbl: nat, d: nat, k: nat)
    requires Given(tail, avbl, d, k, d + 1) && avbl > 0 && d >= 1
    ensures Given([d] + tail, avbl - 1, d, k, d + 1)
  {
    ShlAdds(avbl - 1, 1, k - d);
    ShlOne(k - d);
    assert ([d] + tail)[1..] == tail;
  }

  lemma {:induction false} ShlOne(k: nat)
    ensures Shl(1, k) == Pow2(k) && Shl(0, k) == 0
  {
    if k > 0 { ShlOne(k - 1); }
  }

  /** Going one level down doubles the places. */
  lemma GoDown(tail: seq<nat>, used: nat, d: nat, k: nat)
    requires Given(tail, used, d, k, d + 1) && d < k
    ensures Given(tail, 2 * used, d + 1, k, d + 1)
  {
    ShlAdds(used, 0, k - d - 1);
  }

  lemma LeavesDeeper(tail: seq<nat>, avbl: nat, d: nat, k: nat)
    requires Given(tail, avbl, d, k, d)
    ensures Given(tail, avbl, d, k, d + 1)
  {
  }

  /** Leaves at one level, down to the places its inner nodes need. */
  method GiveLeaves(a: array<nat>, from: nat, places: nat, used: nat, dpth: nat, ghost k: nat) returns (next: int)
    requires used <= places <= from + 1 && from < a.Length && (places > used ==> dpth >= 1)
    requires Given(a[from + 1..], places, dpth, k, dpth + 1)
    modifies a
    ensures next == from - (places - used)
    ensures Given(a[next + 1..], used, dpth, k, dpth + 1)
    ensures forall j :: 0 <= j < a.Length ==> a[j] == if next < j <= from then dpth else old(a[j])
  {
    hide Given;
    next := from;
    var avbl := places;
    while avbl > used
      invariant used <= avbl <= places && next == from - (places - avbl)
      invariant Given(a[next + 1..], avbl, dpth, k, dpth + 1)
      invariant forall j :: 0 <= j < a.Length ==> a[j] == if next < j <= from then dpth else old(a[j])
    {
      GiveLeaf(a[next + 1..], avbl, dpth, k);
      ghost var tail := a[next + 1..];
      a[next] := dpth;
      assert a[next..] == [dpth] + tail;
      next := next - 1;
      avbl := avbl - 1;
    }
  }

  /** The leaves of the nodes behind `hi` have been given their depths. */
  ghost predicate Placed(a: seq<nat>, p: seq<nat>, r: seq<nat>, top: nat, hi: int, next: int) {
    && |a| == |r| == top + 2 && Parents(p, top, top + 1) && -1 <= hi <= top && next + 1 == LeafAt(r, hi + 1)
    && forall k :: hi < k <= top ==> PlacedAt(a, p, r, top, k)
  }

  ghost predicate PlacedAt(a: seq<nat>, p: seq<nat>, r: seq<nat>, top: nat, k: nat)
    requires |a| == |r| == top + 2 && Parents(p, top, top + 1) && k <= top
  {
    forall j :: LeafAt(r, k) <= j < LeafAt(r, k + 1) && 0 <= j < |a| ==> a[j] == Depth(p, top, k) + 1
  }

  lemma {:induction false} TraceOrder(r: seq<nat>, n: nat, k: nat, l: nat)
    requires Trace(r, n) && k <= l < |r|
    ensures r[k] <= r[l] && LeafAt(r, k) <= LeafAt(r, l)
    decreases l
  {
    if k < l {
      TraceOrder(r, n, k, l - 1);
      assert r[l - 1] <= r[l] <= r[l - 1] + 2;
    }
  }

  /** The nodes of a level are what the nodes of the level above were made of. */
  lemma LevelLinks(p: seq<nat>, r: seq<nat>, top: nat, root: int, hi: int, d: nat, root': int)
    requires Linked(p, r, top + 2, top) && |r| == top + 2 && Reached(p, top, root, hi, d)
    requires d > 0 ==> r[hi + 1] == root + 1
    requires -1 <= root' <= root && forall i :: root' < i <= root ==> Depth(p, top, i) == d
    requires root' >= 0 ==> Depth(p, top, root') != d
    requires root' == root ==> root == -1
    ensures r[root + 1] == root' + 1
  {
    if d == 0 {
      assert r[top] <= r[top + 1] <= top && 2 * (top + 1) - r[top + 1] <= top + 2;
      if top > 0 { assert Depth(p, top, top - 1) > 0; }
    } else if root >= 0 {
      ParentLevel(p, r, top, root, hi, d, root' + 1);
      if root' >= 0 && r[root + 1] <= root' {
        ParentLevel(p, r, top, root, hi, d, root');
        assert false;
      }
    }
  }

  /** A node is in level `d` exactly if its parent is in the level above. */
  lemma ParentLevel(p: seq<nat>, r: seq<nat>, top: nat, root: int, hi: int, d: nat, i: nat)
    requires Linked(p, r, top + 2, top) && |r| == top + 2 && Reached(p, top, root, hi, d)
    requires d > 0 && r[hi + 1] == root + 1 && i <= root
    ensures Depth(p, top, i) == d <==> r[root + 1] <= i
  {
    hide Trace;
    LinkedFrom(p, r, top, i);
    assert Depth(p, top, p[i]) + 1 == Depth(p, top, i);
    if p[i] <= root {
      LinkedOrder(r, top, p[i] + 1, root + 1);
    } else {
      LinkedOrder(r, top, root + 1, p[i]);
    }
  }

  lemma LinkedOrder(r: seq<nat>, top: nat, k: nat, l: nat)
    requires Trace(r, top + 2) && k <= l < |r|
    ensures r[k] <= r[l]
  {
    TraceOrder(r, top + 2, k, l);
  }

  lemma LinkedFrom(p: seq<nat>, r: seq<nat>, top: nat, i: nat)
    requires Linked(p, r, top + 2, top) && i < top
    ensures i < |p| && p[i] + 1 < |r| && r[p[i]] <= i < r[p[i] + 1]
  {
    assert LinkedAt(p, r, i);
  }

  /** Giving out the leaves of a level. */
  lemma PlaceLevel(s0: seq<nat>, s1: seq<nat>, p: seq<nat>, r: seq<nat>, top: nat, root: int, hi: int, d: nat, root': int,
                   next: int, next': int)
    requires Placed(s0, p, r, top, hi, next) && Reached(p, top, root, hi, d) && Trace(r, top + 2)
    requires r[root + 1] == root' + 1 && (d > 0 ==> r[hi + 1] == root + 1)
    requires next' == next - (Places(root, hi, d) - (root - root')) && -1 <= root' <= root && -1 <= next'
    requires |s1| == |s0| && next < |s0| && forall j :: 0 <= j < |s1| ==> s1[j] == if next' < j <= next then d else s0[j]
    ensures Placed(s1, p, r, top, root, next')
  {
    if d == 0 {
      assert r[top] <= r[top + 1] <= top && 2 * (top + 1) - r[top + 1] <= top + 2;
    }
    forall k | root < k <= top
      ensures PlacedAt(s1, p, r, top, k)
    {
      TraceOrder(r, top + 2, root + 1, k);
      if k <= hi {
        TraceOrder(r, top + 2, k + 1, hi + 1);
      } else {
        TraceOrder(r, top + 2, hi + 1, k);
        assert PlacedAt(s0, p, r, top, k);
      }
    }
  }

  /** Between two levels: `avbl` places are left at level `d`. */
  ghost predicate Underway(a: seq<nat>, p: seq<nat>, r: seq<nat>, top: nat, root: int, hi: int, d: nat, avbl: nat, next: int) {
    && |a| == |r| == top + 2 && -1 <= root && next == root + avbl < |a|
    && Unread(a, p, top, root) && Linked(p, r, top + 2, top)
    && Placed(a, p, r, top, hi, next) && (d > 0 ==> r[hi + 1] == root + 1)
    && (if avbl > 0 then
         Reached(p, top, root, hi, d) && avbl == Places(root, hi, d) && Given(a[next + 1..], avbl, d, top + 1, d)
       else
         root == hi == -1 && Leaves(a, Depth(p, top, 0) + 2, top + 1) && KraftSum(a, top + 1) == Pow2(top + 1))
  }

  /** The inner nodes of level `d` are those behind `root'`. */
  ghost predicate Level(a: seq<nat>, root: int, d: nat, root': int) {
    && -1 <= root' <= root < |a| && (forall i :: root' < i <= root ==> a[i] == d)
    && (root' >= 0 ==> a[root'] != d)
  }

  lemma LevelCounted(a: seq<nat>, p: seq<nat>, r: seq<nat>, top: nat, root: int, hi: int, d: nat, avbl: nat, next: int, root': int)
    requires Underway(a, p, r, top, root, hi, d, avbl, next) && avbl > 0 && Level(a, root, d, root')
    ensures root - root' <= avbl && (root - root' < avbl ==> d >= 1) && |a| == top + 2
    ensures Given(a[next + 1..], avbl, d, top + 1, d + 1)
  {
    hide Given, Linked, Placed, Reached, Unread, Depth, Leaves;
    CountLevel(a, p, r, top, root, hi, d, root');
    LeavesDeeper(a[next + 1..], avbl, d, top + 1);
    if root - root' < avbl { FirstLevel(p, top, root, hi, d, root - root', avbl); }
  }

  lemma LevelGiven(s0: seq<nat>, s1: seq<nat>, p: seq<nat>, r: seq<nat>, top: nat, root: int, hi: int, d: nat, avbl: nat,
                   next: int, root': int, next': int)
    requires Underway(s0, p, r, top, root, hi, d, avbl, next) && avbl > 0 && Level(s0, root, d, root')
    requires next' == next - (avbl - (root - root')) && -1 <= next' <= next && |s1| == |s0| == top + 2
    requires forall j :: 0 <= j < |s1| ==> s1[j] == if next' < j <= next then d else s0[j]
    requires Given(s1[next' + 1..], root - root', d, top + 1, d + 1)
    ensures Underway(s1, p, r, top, root', root, d + 1, 2 * (root - root'), next')
  {
    hide Given, Placed, Reached, Unread, Depth, Leaves, Parents, KraftSum, Pow2;
    CountLevel(s0, p, r, top, root, hi, d, root');
    UnreadStill(s0, s1, p, top, root, root', next');
    PlaceLevel(s0, s1, p, r, top, root, hi, d, root', next, next');
    LevelBounds(p, top, root, hi, d);
    if root > root' {
      GoDown(s1[next' + 1..], root - root', d, top + 1);
    } else {
      LastLevel(p, top, root, hi, d);
      AllGiven(s1, s1[next' + 1..], d, top + 1, Depth(p, top, 0));
    }
  }

  lemma LevelBounds(p: seq<nat>, top: nat, root: int, hi: int, d: nat)
    requires Reached(p, top, root, hi, d)
    ensures Parents(p, top, top + 1) && root <= top
  {
  }

  /** The third phase: depths of the leaves in place of those of the inner nodes. */
  method MakeLengths(a: array<nat>, ghost p: seq<nat>, ghost r: seq<nat>)
    requires a.Length >= 2 && Unread(a[..], p, a.Length - 2, a.Length - 2)
    requires Linked(p, r, a.Length, a.Length - 2) && |r| == a.Length
    modifies a
    ensures Leaves(a[..], Depth(p, a.Length - 2, 0) + 2, a.Length - 1)
    ensures KraftSum(a[..], a.Length - 1) == Pow2(a.Length - 1)
    ensures Placed(a[..], p, r, a.Length - 2, -1, -1)
  {
    hide Underway, Level, Given, Leaves, Placed, KraftSum, Pow2, Linked, Unread, Parents, Depth;
    ghost var top: nat, hi: int := a.Length - 2, a.Length - 2;
    var avbl: int, used: int, dpth: int := 1, 0, 0;
    var root, next := a.Length - 2, a.Length - 1;
    StartLevels(a[..], p, r, top);
    while avbl > 0
      invariant avbl >= 0 && used == 0 && dpth >= 0 && -1 <= root && next == root + avbl < a.Length
      invariant Underway(a[..], p, r, top, root, hi, dpth, avbl, next)
      decreases root + 1 + if avbl > 0 then 1 else 0
    {
      ghost var root0, next0, s0 := root, next, a[..];
      used, root := CountNodes(a, root, dpth);
      LevelCounted(s0, p, r, top, root0, hi, dpth, avbl, next, root);
      next := GiveLeaves(a, next, avbl, used, dpth, top + 1);
      LevelGiven(s0, a[..], p, r, top, root0, hi, dpth, avbl, next0, root, next);
      avbl := 2 * used;
      dpth := dpth + 1;
      used := 0;
      hi := root0;
    }
    LevelsDone(a[..], p, r, top, root, hi, dpth, next);
  }

  /** How many inner nodes a level has. */
  method CountNodes(a: array<nat>, root0: int, dpth: int) returns (used: int, root: int)
    requires -1 <= root0 < a.Length && dpth >= 0
    ensures used == root0 - root && -1 <= root <= root0 && Level(a[..], root0, dpth, root)
  {
    hide Level;
    used, root := 0, root0;
    while root >= 0 && a[root] == dpth
      invariant -1 <= root <= root0 && used == root0 - root
      invariant forall i :: root < i <= root0 ==> a[i] == dpth
    {
      used := used + 1;
      root := root - 1;
    }
    LevelIs(a[..], root0, dpth, root);
  }

  lemma LevelIs(a: seq<nat>, root: int, d: nat, root': int)
    requires -1 <= root' <= root < |a| && (forall i :: root' < i <= root ==> a[i] == d)
    requires root' >= 0 ==> a[root'] != d
    ensures Level(a, root, d, root')
  {
  }

  lemma LevelsDone(a: seq<nat>, p: seq<nat>, r: seq<nat>, top: nat, root: int, hi: int, d: nat, next: int)
    requires Underway(a, p, r, top, root, hi, d, 0, next)
    ensures Parents(p, top, top + 1) && Leaves(a, Depth(p, top, 0) + 2, top + 1) && KraftSum(a, top + 1) == Pow2(top + 1)
    ensures Placed(a, p, r, top, -1, -1)
  {
  }

  lemma LastLevel(p: seq<nat>, top: nat, root: int, hi: int, d: nat)
    requires Reached(p, top, root, hi, d)
    ensures d <= Depth(p, top, 0) + 1
  {
    if d > 0 { DepthOrder(p, top, 0, root + 1); }
  }

  lemma StartLevels(a: seq<nat>, p: seq<nat>, r: seq<nat>, top: nat)
    requires Unread(a, p, top, top) && Linked(p, r, top + 2, top) && |r| == top + 2
    ensures Underway(a, p, r, top, top, top, 0, 1, top + 1)
  {
    assert r[top] <= r[top + 1] <= top && 2 * (top + 1) - r[top + 1] <= top + 2;
    assert a[top + 2..] == [];
    ShlOne(top + 1);
  }

  lemma CountLevel(a: seq<nat>, p: seq<nat>, r: seq<nat>, top: nat, root: int, hi: int, d: nat, root': int)
    requires Unread(a, p, top, root) && Reached(p, top, root, hi, d) && -1 <= root' <= root
    requires Linked(p, r, top + 2, top) && |r| == top + 2 && (d > 0 ==> r[hi + 1] == root + 1)
    requires forall i :: root' < i <= root ==> a[i] == d
    requires root' >= 0 ==> a[root'] != d
    ensures root - root' <= Places(root, hi, d)
    ensures root' == root ==> root == -1
    ensures root' < root ==> Reached(p, top, root', root, d + 1) && d < top + 1
    ensures r[root + 1] == root' + 1
  {
    NextLevel(p, top, root, hi, d, root');
    LevelLinks(p, r, top, root, hi, d, root');
  }

  /** At the top there is one place, and the root takes it. */
  lemma FirstLevel(p: seq<nat>, top: nat, root: int, hi: int, d: nat, used: nat, avbl: int)
    requires Reached(p, top, root, hi, d) && used < avbl <= Places(root, hi, d) && (used == 0 ==> root == -1)
    ensures d >= 1
  {
  }

  lemma UnreadStill(s0: seq<nat>, s1: seq<nat>, p: seq<nat>, top: nat, root0: int, root: int, next: int)
    requires Unread(s0, p, top, root0) && -1 <= root <= root0 && root <= next && |s0| == |s1|
    requires forall j :: 0 <= j <= next && j < |s0| ==> s1[j] == s0[j]
    ensures Unread(s1, p, top, root)
  {
  }

  lemma AllGiven(a: seq<nat>, tail: seq<nat>, d: nat, k: nat, most: nat)
    requires Given(tail, 0, d, k, d + 1) && tail == a && d <= most + 1
    ensures Leaves(a, most + 2, k) && KraftSum(a, k) == Pow2(k)
  {
    ShlOne(k - d);
  }

  function Fib(k: nat): nat { if k <= 1 then k else Fib(k - 1) + Fib(k - 2) }

  /** Along the way up to the root the weights grow at least like the Fibonacci numbers. */
  lemma {:induction false} Climb(g: History, p: seq<nat>, top: nat, i: nat, k: nat)
    requires Parents(p, top, top + 1) && Heavy(g, p, top) && |g.w| == top + 1 && i <= top
    requires g.w[i] >= Fib(k + 3) && g.h[i] >= Fib(k + 2)
    ensures g.w[top] >= Fib(k + Depth(p, top, i) + 3)
    decreases top - i
  {
    if i < top {
      assert HeavyAt(g, p, i);
      Climb(g, p, top, p[i], k + 1);
    }
  }

  lemma {:induction false} FibGrows(j: nat, k: nat)
    requires j <= k
    ensures Fib(j) <= Fib(k)
    decreases k
  {
    if j < k { FibGrows(j, k - 1); }
  }

  lemma FibStart()
    ensures Fib(2) == 1 && Fib(3) == 2
  {
  }

  /** Long words take a heavy text. */
  ghost predicate Shallow(lens: seq<nat>, total: nat) {
    forall i :: 0 <= i < |lens| ==> Fib(lens[i] + 2) <= total
  }

  /** So sixteen bits of weight cannot make the tree deeper than 21 inner levels. */
  lemma DepthBound(g: History, p: seq<nat>, top: nat, i: nat)
    requires Parents(p, top, top + 1) && Heavy(g, p, top) && |g.w| == top + 1 && g.w[top] < U16 && i <= top
    ensures Depth(p, top, i) <= 21
  {
    Climb(g, p, top, i, 0);
    if Depth(p, top, i) > 21 {
      FibGrows(25, Depth(p, top, i) + 3);
      Fib25();
    }
  }

  lemma Fib25()
    ensures Fib(25) == 75025
  {
    assert Fib(8) == 21 && Fib(9) == 34;
    assert Fib(16) == 987 && Fib(17) == 1597;
    assert Fib(20) == 6765 && Fib(21) == 10946;
  }

  /** tdefl_calculate_minimum_redundancy: a full code, its lengths falling with
      the index, whatever the weights are. When they are sorted and their sum
      fits sixteen bits, no length is above 22 and no other code is shorter. */
  method MinimumRedundancy(a: array<nat>)
    modifies a
    ensures a.Length == 1 ==> a[0] == 1
    ensures a.Length >= 2 ==> Leaves(a[..], a.Length, a.Length - 1)
    ensures a.Length >= 2 ==> KraftSum(a[..], a.Length - 1) == Pow2(a.Length - 1)
    ensures a.Length >= 2 && Weighable(old(a[..])) ==> Leaves(a[..], 23, a.Length - 1) && Shallow(a[..], Sum(old(a[..])))
                                                       && Shortest(old(a[..]), a[..])
  {
    hide Shallow, Sum, Leaves, Weighable, Shortest;
    if a.Length == 0 {
      return;
    } else if a.Length == 1 {
      a[0] := 1;
      return;
    }
    TreeLengths(a);
  }

  /** The three phases. */
  method TreeLengths(a: array<nat>)
    requires a.Length >= 2
    modifies a
    ensures Leaves(a[..], a.Length, a.Length - 1) && KraftSum(a[..], a.Length - 1) == Pow2(a.Length - 1)
    ensures Weighable(old(a[..])) ==> Leaves(a[..], 23, a.Length - 1) && Shallow(a[..], Sum(old(a[..])))
                                      && Shortest(old(a[..]), a[..])
  {
    hide Shallow, Leaves, Reached, Given, Unread, Heavy, Weighable, Parents, Depth, KraftSum, Pow2, Sum, Linked, Placed, Made, Shortest;
    ghost var orig := a[..];
    ghost var g, r := MakeTree(a);
    ghost var p := a[..];
    MakeDepths(a);
    DepthsUnread(a[..], p);
    MakeLengths(a, p, r);
    LeavesFewer(a[..], p);
    if Weighable(orig) {
      LeavesShort(a[..], orig, p, g);
      PlacedShortest(a[..], orig, p, g, r);
    }
  }

  /** Each leaf is one level below the node it was made part of, so the tree is
      the one made by merging. */
  lemma PlacedShortest(a: seq<nat>, orig: seq<nat>, p: seq<nat>, g: History, r: seq<nat>)
    requires |a| == |p| == |orig| >= 2 && Placed(a, p, r, |p| - 2, -1, -1) && Linked(p, r, |p|, |p| - 2)
    requires Made(orig, g.w, r)
    ensures Shortest(orig, a)
  {
    hide Made, Shortest;
    var n, top := |p|, |p| - 2;
    var depths := seq(n - 1, i requires 0 <= i < n - 1 => Depth(p, top, i));
    forall k | 0 <= k < n - 1
      ensures DepthsAt(r, k, depths, a)
    {
      assert PlacedAt(a, p, r, top, k);
      forall i | r[k] <= i < r[k + 1] && i < |depths|
        ensures depths[i] == depths[k] + 1
      {
        LinkedTo(p, r, top, k, i);
      }
    }
    TreeShortest(orig, g.w, r, depths, a);
  }

  lemma LinkedTo(p: seq<nat>, r: seq<nat>, top: nat, k: nat, i: nat)
    requires Linked(p, r, top + 2, top) && |r| == top + 2 && k <= top && r[k] <= i < r[k + 1] && |p| == top + 2
    ensures i < top && p[i] == k
  {
    assert r[top] <= r[top + 1] <= top;
    TraceOrder(r, top + 2, k + 1, top + 1);
    LinkedFrom(p, r, top, i);
    if p[i] < k { TraceOrder(r, top + 2, p[i] + 1, k); }
    if p[i] > k { TraceOrder(r, top + 2, k + 1, p[i]); }
  }

  lemma DepthsUnread(a: seq<nat>, p: seq<nat>)
    requires |a| == |p| >= 2 && Parents(p, |p| - 2, |p| - 1)
    requires forall i :: 0 <= i <= |p| - 2 ==> a[i] == Depth(p, |p| - 2, i)
    ensures Unread(a, p, |p| - 2, |p| - 2)
  {
  }

  lemma LeavesFewer(a: seq<nat>, p: seq<nat>)
    requires |a| == |p| >= 2 && Parents(p, |p| - 2, |p| - 1) && Leaves(a, Depth(p, |p| - 2, 0) + 2, |p| - 1)
    ensures Leaves(a, |a|, |a| - 1)
  {
    assert Depth(p, |p| - 2, 0) <= |p| - 2;
  }

  lemma LeavesShort(a: seq<nat>, orig: seq<nat>, p: seq<nat>, g: History)
    requires |a| == |p| == |orig| >= 2 && Parents(p, |p| - 2, |p| - 1) && Leaves(a, Depth(p, |p| - 2, 0) + 2, |p| - 1)
    requires Weighable(orig) && Heavy(g, p, |p| - 2) && |g.w| == |p| - 1 && g.w[|p| - 2] == Sum(orig)
    ensures Leaves(a, 23, |a| - 1) && Shallow(a, Sum(orig))
  {
    hide Fib;
    var top := |p| - 2;
    DepthBound(g, p, top, 0);
    FibStart();
    Climb(g, p, top, 0, 0);
    forall i | 0 <= i < |a|
      ensures Fib(a[i] + 2) <= Sum(orig)
    {
      FibGrows(a[i] + 2, Depth(p, top, 0) + 3);
    }
  }
}
