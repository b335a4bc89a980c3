/** The index of a zip archive's central directory by name: sorted in place by
    a heap, searched by bisection. */
module ZipIndex {
  newtype Byte = x: int | 0 <= x < 256

  type Name = seq<Byte>

  /** MZ_TOLOWER */
  function ToLower(c: Byte): Byte { if 65 <= c <= 90 then c + 32 else c }

  function Fold(name: Name): (f: Name)
    ensures |f| == |name|
  {
    seq(|name|, i requires 0 <= i < |name| => ToLower(name[i]))
  }

  /** The order of folded names: by the first byte that differs, a beginning
      before what goes on. */
  function Less(a: Name, b: Name): bool {
    if b == [] then false
    else if a == [] then true
    else if a[0] != b[0] then a[0] < b[0]
    else Less(a[1..], b[1..])
  }

  lemma {:induction false} LessTotal(a: Name, b: Name)
    ensures Less(a, b) || Less(b, a) || a == b
    ensures !(Less(a, b) && Less(b, a)) && !Less(a, a)
    decreases |a|
  {
    if a != [] {
      LessTotal(a[1..], a[1..]);
      if b != [] && a[0] == b[0] {
        LessTotal(a[1..], b[1..]);
        assert a == [a[0]] + a[1..] && b == [b[0]] + b[1..];
      }
    }
  }

  lemma {:induction false} LessTrans(a: Name, b: Name, c: Name)
    requires Less(a, b) && Less(b, c)
    ensures Less(a, c)
    decreases |a|
  {
    if a != [] && a[0] == b[0] == c[0] {
      LessTrans(a[1..], b[1..], c[1..]);
    }
  }

  /** How far two names agree decides their order. */
  lemma {:induction false} LessAt(a: Name, b: Name, k: nat)
    requires k <= |a| && k <= |b| && a[..k] == b[..k]
    requires k < |a| && k < |b| ==> a[k] != b[k]
    ensures Less(a, b) <==> (k == |a| && k < |b|) || (k < |a| && k < |b| && a[k] < b[k])
    ensures a == b <==> k == |a| == |b|
    decreases k
  {
    if k > 0 {
      assert a[0] == a[..k][0] == b[..k][0] == b[0];
      assert a[1..][..k - 1] == a[..k][1..] && b[1..][..k - 1] == b[..k][1..];
      LessAt(a[1..], b[1..], k - 1);
      assert a == [a[0]] + a[1..] && b == [b[0]] + b[1..];
    }
  }

  /** Entry `i` comes before entry `j`. */
  predicate Before(names: seq<Name>, i: nat, j: nat)
    requires i < |names| && j < |names|
  {
    Less(Fold(names[i]), Fold(names[j]))
  }

  /** The larger of the two is not before the other. */
  predicate NotAfter(names: seq<Name>, i: nat, j: nat)
    requires i < |names| && j < |names|
  {
    !Before(names, j, i)
  }

  lemma NotAfterTrans(names: seq<Name>, i: nat, j: nat, k: nat)
    requires i < |names| && j < |names| && k < |names| && NotAfter(names, i, j) && NotAfter(names, j, k)
    ensures NotAfter(names, i, k)
  {
    var a, b, c := Fold(names[i]), Fold(names[j]), Fold(names[k]);
    LessTotal(a, b);
    LessTotal(b, c);
    LessTotal(a, c);
    if Less(c, a) && Less(a, b) { LessTrans(c, a, b); }
  }

  lemma BeforeNotAfter(names: seq<Name>, i: nat, j: nat)
    requires i < |names| && j < |names|
    ensures Before(names, i, j) ==> NotAfter(names, i, j)
    ensures NotAfter(names, i, i)
  {
    LessTotal(Fold(names[i]), Fold(names[j]));
    LessTotal(Fold(names[i]), Fold(names[i]));
  }

  /** mz_zip_filename_compare: below zero, zero or above like the order. */
  method Compare(l: Name, r: Name) returns (c: int)
    ensures c == 0 <==> Fold(l) == Fold(r)
    ensures c < 0 <==> Less(Fold(l), Fold(r))
  {
    var n := if |l| < |r| then |l| else |r|;
    var k := 0;
    while k < n && ToLower(l[k]) == ToLower(r[k])
      invariant 0 <= k <= n && Fold(l)[..k] == Fold(r)[..k]
    {
      assert Fold(l)[..k + 1] == Fold(l)[..k] + [ToLower(l[k])];
      assert Fold(r)[..k + 1] == Fold(r)[..k] + [ToLower(r[k])];
      k := k + 1;
    }
    LessAt(Fold(l), Fold(r), k);
    c := if k == n then |l| - |r| else ToLower(l[k]) as int - ToLower(r[k]) as int;
  }

  /** mz_zip_reader_filename_less */
  method FilenameLess(names: seq<Name>, i: nat, j: nat) returns (less: bool)
    requires i < |names| && j < |names|
    ensures less == Before(names, i, j)
  {
    var l, r := names[i], names[j];
    var n := if |l| < |r| then |l| else |r|;
    var k := 0;
    while k < n && ToLower(l[k]) == ToLower(r[k])
      invariant 0 <= k <= n && Fold(l)[..k] == Fold(r)[..k]
    {
      assert Fold(l)[..k + 1] == Fold(l)[..k] + [ToLower(l[k])];
      assert Fold(r)[..k + 1] == Fold(r)[..k] + [ToLower(r[k])];
      k := k + 1;
    }
    LessAt(Fold(l), Fold(r), k);
    less := if k == n then |l| < |r| else ToLower(l[k]) < ToLower(r[k]);
  }

  ghost predicate Indices(a: seq<nat>, n: nat) { forall i :: 0 <= i < |a| ==> a[i] < n }

  function Swap(a: seq<nat>, i: nat, j: nat): (b: seq<nat>)
    requires i < |a| && j < |a|
    ensures |b| == |a|
  {
    a[i := a[j]][j := a[i]]
  }

  lemma SwapSame(a: seq<nat>, i: nat, j: nat)
    requires i < |a| && j < |a|
    ensures multiset(Swap(a, i, j)) == multiset(a)
  {
  }

  lemma SwapIndices(a: seq<nat>, i: nat, j: nat, n: nat)
    requires i < |a| && j < |a| && Indices(a, n)
    ensures Indices(Swap(a, i, j), n)
  {
  }

  /** From `start` on no entry below `end` is before its children, but for
      `root`, whose children are not after its parent. */
  ghost predicate HeapBut(names: seq<Name>, a: seq<nat>, start: nat, root: nat, end: nat) {
    && end <= |a| && Indices(a, |names|)
    && (forall c :: 1 <= c < end && start <= (c - 1) / 2 && (c - 1) / 2 != root ==> TopsAt(names, a, c))
    && (forall c :: 1 <= c < end && (c - 1) / 2 == root ==> GrandTops(names, a, start, root, c))
  }

  /** Entry `p` is not before entry `c`. */
  predicate Tops(names: seq<Name>, a: seq<nat>, p: nat, c: nat) {
    c < |a| && p < |a| && a[c] < |names| && a[p] < |names| && NotAfter(names, a[c], a[p])
  }

  predicate GrandTops(names: seq<Name>, a: seq<nat>, start: nat, root: nat, c: nat) {
    root > 0 && start <= (root - 1) / 2 ==> Tops(names, a, (root - 1) / 2, c)
  }

  predicate TopsAt(names: seq<Name>, a: seq<nat>, c: nat) { c >= 1 && Tops(names, a, (c - 1) / 2, c) }

  ghost predicate Heap(names: seq<Name>, a: seq<nat>, start: nat, end: nat) {
    && end <= |a| && Indices(a, |names|)
    && forall c :: 1 <= c < end && start <= (c - 1) / 2 ==> TopsAt(names, a, c)
  }

  /** The larger child of `root` below `end`. */
  ghost predicate Larger(names: seq<Name>, a: seq<nat>, root: nat, c: nat, end: nat) {
    && (c == 2 * root + 1 || c == 2 * root + 2) && c < end <= |a|
    && forall d :: 1 <= d < end && (d - 1) / 2 == root ==> Tops(names, a, c, d)
  }

  lemma SiftSwap(names: seq<Name>, a: seq<nat>, start: nat, root: nat, c: nat, end: nat)
    requires HeapBut(names, a, start, root, end) && start <= root && Larger(names, a, root, c, end)
    requires Before(names, a[root], a[c])
    ensures HeapBut(names, Swap(a, root, c), start, c, end)
  {
    var b := Swap(a, root, c);
    SwapIndices(a, root, c, |names|);
    BeforeNotAfter(names, a[root], a[c]);
    assert GrandTops(names, a, start, root, c);
    forall d | 1 <= d < end && start <= (d - 1) / 2 && (d - 1) / 2 != c
      ensures TopsAt(names, b, d)
    {
      if (d - 1) / 2 == root {
        assert Tops(names, a, c, d);
      } else {
        assert TopsAt(names, a, d);
      }
    }
    forall d | 1 <= d < end && (d - 1) / 2 == c
      ensures GrandTops(names, b, start, c, d)
    {
      assert TopsAt(names, a, d);
    }
  }

  /** When `root` is not before its larger child, the heap is whole. */
  lemma SiftDone(names: seq<Name>, a: seq<nat>, start: nat, root: nat, c: nat, end: nat)
    requires HeapBut(names, a, start, root, end) && root < |a|
    requires c == 2 * root + 1 >= end || (Larger(names, a, root, c, end) && !Before(names, a[root], a[c]))
    ensures Heap(names, a, start, end)
  {
    forall d | 1 <= d < end && start <= (d - 1) / 2
      ensures TopsAt(names, a, d)
    {
      if (d - 1) / 2 == root {
        assert Tops(names, a, c, d);
        NotAfterTrans(names, a[d], a[c], a[root]);
      }
    }
  }

  lemma HeapIndices(names: seq<Name>, a: seq<nat>, start: nat, root: nat, end: nat)
    requires HeapBut(names, a, start, root, end)
    ensures Indices(a, |names|) && end <= |a|
  {
  }

  method LargerChild(names: seq<Name>, a: array<nat>, root: nat, end: nat) returns (child: nat)
    requires 2 * root + 1 < end <= a.Length && Indices(a[..], |names|)
    ensures Larger(names, a[..], root, child, end)
  {
    child := 2 * root + 1;
    BeforeNotAfter(names, a[child], a[child]);
    if child + 1 < end {
      var less := FilenameLess(names, a[child], a[child + 1]);
      BeforeNotAfter(names, a[child], a[child + 1]);
      BeforeNotAfter(names, a[child + 1], a[child + 1]);
      if less {
        child := child + 1;
      }
    }
  }

  /** One sifting of the sort: the entry at `root` goes down to its place. */
  method SiftDown(names: seq<Name>, a: array<nat>, start: nat, end: nat)
    requires start < end <= a.Length && HeapBut(names, a[..], start, start, end)
    modifies a
    ensures Heap(names, a[..], start, end) && a[end..] == old(a[end..])
    ensures multiset(a[..end]) == multiset(old(a[..end]))
  {
    hide HeapBut, Heap, Before;
    var root := start;
    while true
      invariant start <= root < end && HeapBut(names, a[..], start, root, end)
      invariant a[end..] == old(a[end..]) && multiset(a[..end]) == multiset(old(a[..end]))
      decreases end - root
    {
      HeapIndices(names, a[..], start, root, end);
      var child := 2 * root + 1;
      if child >= end {
        SiftDone(names, a[..], start, root, child, end);
        break;
      }
      child := LargerChild(names, a, root, end);
      var less := FilenameLess(names, a[root], a[child]);
      if !less {
        SiftDone(names, a[..], start, root, child, end);
        break;
      }
      ghost var before := a[..];
      SiftSwap(names, a[..], start, root, child, end);
      SwapSame(a[..end], root, child);
      a[root], a[child] := a[child], a[root];
      assert a[..] == Swap(before, root, child) && a[..end] == Swap(before[..end], root, child);
      root := child;
    }
  }

  /** The top of a heap is not before any entry. */
  lemma {:induction false} HeapTop(names: seq<Name>, a: seq<nat>, end: nat, i: nat)
    requires Heap(names, a, 0, end) && i < end
    ensures Tops(names, a, 0, i)
  {
    if i > 0 {
      assert TopsAt(names, a, i);
      HeapTop(names, a, end, (i - 1) / 2);
      NotAfterTrans(names, a[i], a[(i - 1) / 2], a[0]);
    } else {
      BeforeNotAfter(names, a[0], a[0]);
    }
  }

  /** From `end` on the entries are in order, and none before `end` is after them. */
  ghost predicate SortedFrom(names: seq<Name>, a: seq<nat>, end: nat) {
    Indices(a, |names|) && forall i, j :: 0 <= i < j < |a| && end <= j ==> Tops(names, a, j, i)
  }

  /** Moving the top behind the rest of the heap. */
  lemma TopMoved(names: seq<Name>, a: seq<nat>, end: nat)
    requires 0 < end < |a| && Heap(names, a, 0, end + 1) && SortedFrom(names, a, end + 1)
    ensures HeapBut(names, Swap(a, end, 0), 0, 0, end) && SortedFrom(names, Swap(a, end, 0), end)
  {
    var b := Swap(a, end, 0);
    SwapIndices(a, end, 0, |names|);
    forall c | 1 <= c < end && (c - 1) / 2 != 0
      ensures TopsAt(names, b, c)
    {
      assert TopsAt(names, a, c);
    }
    forall i, j | 0 <= i < j < |b| && end <= j
      ensures Tops(names, b, j, i)
    {
      var k := if i == 0 then end else if i == end then 0 else i;
      if j == end {
        HeapTop(names, a, end + 1, k);
      } else {
        assert Tops(names, a, j, k);
      }
    }
  }

  /** Sorting the front of the array anew leaves the order of the rest to it. */
  lemma FrontMixed(names: seq<Name>, a: seq<nat>, b: seq<nat>, end: nat)
    requires SortedFrom(names, a, end) && |b| == |a| && end <= |a| && b[end..] == a[end..]
    requires multiset(a[..end]) == multiset(b[..end])
    ensures SortedFrom(names, b, end)
  {
    forall i | 0 <= i < end
      ensures exists k :: 0 <= k < end && a[k] == b[i]
    {
      assert b[..end][i] in multiset(b[..end]);
      assert b[i] in a[..end];
    }
    assert forall j :: end <= j < |a| ==> b[j] == b[end..][j - end] == a[j];
    forall i, j | 0 <= i < j < |b| && end <= j
      ensures Tops(names, b, j, i)
    {
      var k :| 0 <= k < |a| && k < j && a[k] == b[i];
      assert Tops(names, a, j, k);
    }
  }

  lemma SameMultiset(a: seq<nat>, b: seq<nat>, end: nat)
    requires |a| == |b| && end <= |a| && a[end..] == b[end..] && multiset(a[..end]) == multiset(b[..end])
    ensures multiset(a) == multiset(b)
  {
    assert a == a[..end] + a[end..] && b == b[..end] + b[end..];
  }

  /** mz_zip_reader_sort_central_dir_offsets_by_filename */
  method SortByFilename(names: seq<Name>, a: array<nat>)
    requires a.Length == |names| && Indices(a[..], |names|)
    modifies a
    ensures SortedFrom(names, a[..], 0) && multiset(a[..]) == multiset(old(a[..]))
  {
    hide HeapBut, Heap, SortedFrom, Indices;
    var size := a.Length;
    if size <= 1 {
      FewSorted(names, a[..]);
      return;
    }
    MakeHeap(names, a);
    var end := size - 1;
    NoneSorted(names, a[..]);
    while end > 0
      invariant 0 <= end < size && Heap(names, a[..], 0, end + 1) && SortedFrom(names, a[..], end + 1)
      invariant multiset(a[..]) == multiset(old(a[..]))
    {
      TopMoved(names, a[..], end);
      SwapSame(a[..], end, 0);
      ghost var s0 := Swap(a[..], end, 0);
      a[end], a[0] := a[0], a[end];
      assert a[..] == s0;
      SiftDown(names, a, 0, end);
      SameMultiset(s0, a[..], end);
      FrontMixed(names, s0, a[..], end);
      end := end - 1;
    }
    OneLeft(names, a[..]);
  }

  /** From the last parent down every entry is sifted. */
  method MakeHeap(names: seq<Name>, a: array<nat>)
    requires a.Length == |names| >= 2 && Indices(a[..], |names|)
    modifies a
    ensures Heap(names, a[..], 0, a.Length) && multiset(a[..]) == multiset(old(a[..]))
  {
    hide HeapBut, Heap, Indices;
    var size := a.Length;
    var start := (size - 2) / 2;
    LeavesHeap(names, a[..], start + 1);
    while true
      invariant 0 <= start < size && Heap(names, a[..], start + 1, size)
      invariant multiset(a[..]) == multiset(old(a[..]))
      decreases start
    {
      HeapGrows(names, a[..], start, size);
      ghost var s0 := a[..];
      SiftDown(names, a, start, size);
      SameMultiset(s0, a[..], size);
      if start == 0 { break; }
      start := start - 1;
    }
  }

  lemma LeavesHeap(names: seq<Name>, a: seq<nat>, start: nat)
    requires Indices(a, |names|) && |a| >= 2 && start == (|a| - 2) / 2 + 1
    ensures Heap(names, a, start, |a|)
  {
  }

  lemma HeapGrows(names: seq<Name>, a: seq<nat>, start: nat, end: nat)
    requires Heap(names, a, start + 1, end)
    ensures HeapBut(names, a, start, start, end)
  {
  }

  lemma NoneSorted(names: seq<Name>, a: seq<nat>)
    requires Heap(names, a, 0, |a|)
    ensures SortedFrom(names, a, |a|)
  {
  }

  lemma OneLeft(names: seq<Name>, a: seq<nat>)
    requires SortedFrom(names, a, 1)
    ensures SortedFrom(names, a, 0)
  {
  }

  lemma FewSorted(names: seq<Name>, a: seq<nat>)
    requires |a| <= 1 && Indices(a, |names|)
    ensures SortedFrom(names, a, 0)
  {
  }

  datatype Option<T> = None | Some(value: T)

  /** mz_zip_locate_file_binary_search */
  method BinarySearch(names: seq<Name>, a: array<nat>, name: Name) returns (r: Option<nat>)
    requires SortedFrom(names, a[..], 0)
    ensures r.Some? ==> r.value in a[..] && r.value < |names| && Fold(names[r.value]) == Fold(name)
    ensures r.None? ==> forall i :: 0 <= i < a.Length ==> Fold(names[a[i]]) != Fold(name)
  {
    r := None;
    var l, h := 0, a.Length - 1;
    while l <= h
      invariant 0 <= l <= h + 1 <= a.Length
      invariant forall i :: 0 <= i < l ==> Fold(names[a[i]]) != Fold(name)
      invariant forall i :: h < i < a.Length ==> Fold(names[a[i]]) != Fold(name)
      decreases h - l
    {
      var m := l + (h - l) / 2;
      var c := Compare(names[a[m]], name);
      if c == 0 {
        return Some(a[m]);
      }
      OneSide(names, a[..], m, name);
      if c < 0 {
        l := m + 1;
      } else {
        h := m - 1;
      }
    }
  }

  /** The name is not on the side that the comparison rules out. */
  lemma OneSide(names: seq<Name>, a: seq<nat>, m: nat, name: Name)
    requires SortedFrom(names, a, 0) && m < |a| && Fold(names[a[m]]) != Fold(name)
    ensures Less(Fold(names[a[m]]), Fold(name)) ==> forall i :: 0 <= i <= m ==> Fold(names[a[i]]) != Fold(name)
    ensures !Less(Fold(names[a[m]]), Fold(name)) ==> forall i :: m <= i < |a| ==> Fold(names[a[i]]) != Fold(name)
  {
    LessTotal(Fold(names[a[m]]), Fold(name));
    forall i | 0 <= i < |a| && i != m
      ensures i < m ==> !Before(names, a[m], a[i])
      ensures i > m ==> !Before(names, a[i], a[m])
    {
      if i < m { assert Tops(names, a, m, i); } else { assert Tops(names, a, i, m); }
    }
  }

  /** The scan of mz_zip_reader_locate_file_v2 for a name alone: the first that
      is equal but for case. */
  method LinearScan(names: seq<Name>, name: Name) returns (r: Option<nat>)
    ensures r.Some? ==> r.value < |names| && Fold(names[r.value]) == Fold(name)
                        && forall i :: 0 <= i < r.value ==> Fold(names[i]) != Fold(name)
    ensures r.None? ==> forall i :: 0 <= i < |names| ==> Fold(names[i]) != Fold(name)
  {
    var i := 0;
    while i < |names|
      invariant 0 <= i <= |names| && forall k :: 0 <= k < i ==> Fold(names[k]) != Fold(name)
    {
      if |names[i]| >= |name| && |names[i]| == |name| {
        var equal := StringEqual(name, names[i]);
        if equal { return Some(i); }
      }
      i := i + 1;
    }
    r := None;
  }

  /** mz_zip_string_equal, without regard to case. */
  method StringEqual(a: Name, b: Name) returns (equal: bool)
    requires |a| == |b|
    ensures equal <==> Fold(a) == Fold(b)
  {
    var i := 0;
    while i < |a|
      invariant 0 <= i <= |a| && Fold(a)[..i] == Fold(b)[..i]
    {
      if ToLower(a[i]) != ToLower(b[i]) {
        assert Fold(a)[i] != Fold(b)[i];
        return false;
      }
      assert Fold(a)[..i + 1] == Fold(a)[..i] + [ToLower(a[i])];
      assert Fold(b)[..i + 1] == Fold(b)[..i] + [ToLower(b[i])];
      i := i + 1;
    }
    assert Fold(a)[..i] == Fold(a) && Fold(b)[..i] == Fold(b);
    equal := true;
  }

  /** The index of a whole directory. */
  method SortedIndex(names: seq<Name>) returns (a: array<nat>)
    ensures fresh(a) && SortedFrom(names, a[..], 0) && a.Length == |names|
    ensures forall i :: 0 <= i < |names| ==> i in a[..]
  {
    a := new nat[|names|](i => i);
    ghost var before := a[..];
    SortByFilename(names, a);
    forall i | 0 <= i < |names|
      ensures i in a[..]
    {
      assert before[i] == i;
      assert i in multiset(before);
      assert i in multiset(a[..]);
    }
  }

  /** The same byte, or the same letter from A to Z in capitals and not. */
  predicate SameLetter(x: Byte, y: Byte) {
    x == y || (65 <= x <= 90 && y as int == x as int + 32) || (65 <= y <= 90 && x as int == y as int + 32)
  }

  predicate SameButCase(a: Name, b: Name) {
    |a| == |b| && forall i :: 0 <= i < |a| ==> SameLetter(a[i], b[i])
  }

  lemma FoldIs(a: Name, b: Name)
    ensures Fold(a) == Fold(b) <==> SameButCase(a, b)
  {
    if Fold(a) == Fold(b) {
      forall i | 0 <= i < |a|
        ensures SameLetter(a[i], b[i])
      {
        assert Fold(a)[i] == Fold(b)[i];
      }
    }
  }

  /** Bisection finds a name exactly when the scan of the directory does, and an
      entry with an equal name. */
  method LocateBothWays(names: seq<Name>, name: Name) returns (bisected: Option<nat>, scanned: Option<nat>)
    ensures bisected.Some? <==> exists i :: 0 <= i < |names| && SameButCase(names[i], name)
    ensures bisected.Some? <==> scanned.Some?
    ensures bisected.Some? ==> bisected.value < |names| && SameButCase(names[bisected.value], name)
    ensures scanned.Some? ==> scanned.value < |names| && SameButCase(names[scanned.value], name)
                              && forall i :: 0 <= i < scanned.value ==> !SameButCase(names[i], name)
  {
    hide SameButCase, Fold;
    forall i | 0 <= i < |names|
      ensures Fold(names[i]) == Fold(name) <==> SameButCase(names[i], name)
    {
      FoldIs(names[i], name);
    }
    var a := SortedIndex(names);
    bisected := BinarySearch(names, a, name);
    scanned := LinearScan(names, name);
    assert scanned.Some? ==> scanned.value in a[..];
    assert bisected.None? ==> forall x :: x in a[..] ==> exists i :: 0 <= i < a.Length && a[i] == x;
  }
}
