/** The two-level decoding table: 1024 entries for the first ten bits, and for
    longer codes a tree whose nodes are negative numbers. */
module HuffmanTree {
  import opened HuffmanCode

  const FAST_BITS: nat := 10
  const FAST_SIZE: nat := 1024

  /** The numbers of the nodes, by the bits that lead to them. */
  type Nodes = map<Bits, nat>

  function Pointer(k: nat): int { -1 - 2 * k }

  function Parent(p: Bits): Bits
    requires p != []
  {
    p[..|p| - 1]
  }

  /** Whether the bits lead to an entry of the table. */
  predicate Placed(nodes: Nodes, p: Bits) {
    |p| == FAST_BITS || (|p| > FAST_BITS && Parent(p) in nodes)
  }

  function SlotOf(nodes: Nodes, p: Bits): nat
    requires |p| > FAST_BITS && Parent(p) in nodes
  {
    2 * nodes[Parent(p)] + Bit(p[|p| - 1])
  }

  /** The entry the bits lead to. */
  function Entry(look: seq<int>, tree: seq<int>, nodes: Nodes, p: Bits): int
    requires Placed(nodes, p)
  {
    if |p| == FAST_BITS then (if Val(p) < |look| then look[Val(p)] else 0)
    else (if SlotOf(nodes, p) < |tree| then tree[SlotOf(nodes, p)] else 0)
  }

  /** The nodes are the first `|nodes|` numbers, each used once, and lead to each other. */
  ghost predicate Numbered(nodes: Nodes, size: nat) {
    && (forall p :: p in nodes ==> NodeAt(nodes, p, size))
    && (forall p, q :: p in nodes && q in nodes && nodes[p] == nodes[q] ==> p == q)
  }

  predicate NodeAt(nodes: Nodes, p: Bits, size: nat)
    requires p in nodes
  {
    FAST_BITS <= |p| < MAX_BITS && Placed(nodes, p) && nodes[p] < |nodes| && 2 * nodes[p] + 1 < size
  }

  ghost predicate Points(look: seq<int>, tree: seq<int>, nodes: Nodes) {
    forall p :: p in nodes ==> PointsAt(look, tree, nodes, p)
  }

  ghost predicate PointsAt(look: seq<int>, tree: seq<int>, nodes: Nodes, p: Bits)
    requires p in nodes
  {
    Placed(nodes, p) && Entry(look, tree, nodes, p) == Pointer(nodes[p])
  }

  /** A node is the beginning of some longer code word. */
  ghost predicate Inner(lens: Lengths, p: Bits) {
    exists t: nat :: InnerOf(lens, p, t)
  }

  predicate InnerOf(lens: Lengths, p: Bits, t: nat) {
    Used(lens, t) && FAST_BITS <= |p| < lens[t] && p <= CodeWord(lens, t)
  }

  ghost predicate AllInner(lens: Lengths, nodes: Nodes) {
    forall p :: p in nodes ==> Inner(lens, p)
  }

  /** The entry of a symbol: its code is short and fills every entry that
      begins with it, or long and is a leaf. */
  ghost predicate Leads(look: seq<int>, tree: seq<int>, nodes: Nodes, lens: Lengths, s: nat)
    requires Used(lens, s)
  {
    if lens[s] <= FAST_BITS then
      forall p: Bits :: |p| == FAST_BITS && CodeWord(lens, s) <= p ==> LooksUp(look, p, 512 * lens[s] + s)
    else
      && Parent(CodeWord(lens, s)) in nodes
      && Entry(look, tree, nodes, CodeWord(lens, s)) == s
  }

  predicate LooksUp(look: seq<int>, p: Bits, v: int) {
    Val(p) < |look| && look[Val(p)] == v
  }

  ghost predicate AllLead(look: seq<int>, tree: seq<int>, nodes: Nodes, lens: Lengths, n: nat) {
    forall s: nat :: Used(lens, s) && s < n ==> Leads(look, tree, nodes, lens, s)
  }

  /** Nothing else is in the table. */
  ghost predicate Vacant(look: seq<int>, tree: seq<int>, nodes: Nodes, lens: Lengths, n: nat) {
    && (forall p: Bits :: Placed(nodes, p) && p !in nodes && !Taken(lens, n, p) ==> Entry(look, tree, nodes, p) == 0)
    && (forall i :: 2 * |nodes| <= i < |tree| ==> tree[i] == 0)
  }

  /** The bits begin with the word of a symbol that has been entered. */
  ghost predicate Taken(lens: Lengths, n: nat, p: Bits) {
    exists s: nat :: s < n && Used(lens, s) && CodeWord(lens, s) <= p
  }

  ghost predicate Trie(look: seq<int>, tree: seq<int>, nodes: Nodes, lens: Lengths, n: nat) {
    && |look| == FAST_SIZE && Numbered(nodes, |tree|) && Points(look, tree, nodes) && AllInner(lens, nodes)
    && AllLead(look, tree, nodes, lens, n) && Vacant(look, tree, nodes, lens, n)
  }

  /** What the decoder finds: TINFL_HUFF_DECODE. */
  datatype Found = Nothing | Symbol(s: nat, len: nat)

  function Find(look: seq<int>, tree: seq<int>, bits: Bits): Found
    requires |bits| >= FAST_BITS && |look| == FAST_SIZE
  {
    ValFast(bits[..FAST_BITS]);
    var temp := look[Val(bits[..FAST_BITS])];
    if temp >= 0 then Symbol(temp % 512, temp / 512) else Down(tree, temp, bits, FAST_BITS)
  }

  function Down(tree: seq<int>, temp: int, bits: Bits, l: nat): Found
    requires l <= |bits| && temp < 0
    decreases |bits| - l
  {
    if l == |bits| then Nothing
    else
      var i := -temp - 1 + Bit(bits[l]);
      if i >= |tree| then Nothing
      else if tree[i] >= 0 then Symbol(tree[i], l + 1)
      else Down(tree, tree[i], bits, l + 1)
  }

  lemma ValFast(p: Bits)
    requires |p| == FAST_BITS
    ensures Val(p) < FAST_SIZE
  {
    assert Pow2(5) == 32;
    assert Pow2(10) == 1024;
  }

  lemma TrieNode(look: seq<int>, tree: seq<int>, nodes: Nodes, lens: Lengths, n: nat, p: Bits)
    requires Trie(look, tree, nodes, lens, n) && p in nodes
    ensures NodeAt(nodes, p, |tree|) && Entry(look, tree, nodes, p) == Pointer(nodes[p])
  {
    assert NodeAt(nodes, p, |tree|);
    assert PointsAt(look, tree, nodes, p);
  }

  lemma TrieLeads(look: seq<int>, tree: seq<int>, nodes: Nodes, lens: Lengths, n: nat, s: nat)
    requires Trie(look, tree, nodes, lens, n) && Used(lens, s) && s < n
    ensures Leads(look, tree, nodes, lens, s)
  {
  }

  /** One step down from the node at `p`. */
  lemma StepDown(look: seq<int>, tree: seq<int>, nodes: Nodes, lens: Lengths, n: nat, bits: Bits, l: nat)
    requires Trie(look, tree, nodes, lens, n) && FAST_BITS <= l < |bits| && bits[..l] in nodes
    ensures Parent(bits[..l + 1]) == bits[..l] && Placed(nodes, bits[..l + 1])
    ensures var i := -Pointer(nodes[bits[..l]]) - 1 + Bit(bits[l]);
            0 <= i < |tree| && tree[i] == Entry(look, tree, nodes, bits[..l + 1])
  {
    hide Trie;
    TrieNode(look, tree, nodes, lens, n, bits[..l]);
    assert bits[..l + 1][..l] == bits[..l];
  }

  /** Following a long word down the tree. */
  lemma {:induction false} DownFinds(look: seq<int>, tree: seq<int>, nodes: Nodes, lens: Lengths, n: nat,
                                     s: nat, bits: Bits, l: nat)
    requires Trie(look, tree, nodes, lens, n) && Used(lens, s) && s < n && CodeWord(lens, s) <= bits
    requires FAST_BITS <= l < lens[s] && bits[..l] in nodes
    ensures Down(tree, Pointer(nodes[bits[..l]]), bits, l) == Symbol(s, lens[s])
    decreases lens[s] - l
  {
    hide Trie, Entry, CodeWord, NodeAt;
    var w, q := CodeWord(lens, s), bits[..l + 1];
    StepDown(look, tree, nodes, lens, n, bits, l);
    TrieLeads(look, tree, nodes, lens, n, s);
    if l + 1 == lens[s] {
      assert q == w;
    } else {
      NodesAbove(look, tree, nodes, lens, n, Parent(w), l + 1);
      assert Parent(w)[..l + 1] == q;
      TrieNode(look, tree, nodes, lens, n, q);
      DownFinds(look, tree, nodes, lens, n, s, bits, l + 1);
    }
  }

  /** Every beginning of a node, from ten bits on, is a node. */
  lemma {:induction false} NodesAbove(look: seq<int>, tree: seq<int>, nodes: Nodes, lens: Lengths, n: nat, p: Bits, l: nat)
    requires Trie(look, tree, nodes, lens, n) && p in nodes && FAST_BITS <= l <= |p|
    ensures p[..l] in nodes
    decreases |p|
  {
    hide Trie, Entry;
    TrieNode(look, tree, nodes, lens, n, p);
    if l < |p| {
      NodesAbove(look, tree, nodes, lens, n, Parent(p), l);
      assert Parent(p)[..l] == p[..l];
    } else {
      assert p[..l] == p;
    }
  }

  /** The table reads a symbol wherever its word stands. */
  lemma TrieFinds(look: seq<int>, tree: seq<int>, nodes: Nodes, lens: Lengths, s: nat, bits: Bits)
    requires Trie(look, tree, nodes, lens, |lens|) && Used(lens, s) && CodeWord(lens, s) <= bits
    requires |bits| >= MAX_BITS && |lens| <= 512 && |look| == FAST_SIZE
    ensures Find(look, tree, bits) == Symbol(s, lens[s])
  {
    hide Trie, CodeWord, NodeAt, Down;
    var w, p := CodeWord(lens, s), bits[..FAST_BITS];
    ValFast(p);
    TrieLeads(look, tree, nodes, lens, |lens|, s);
    if lens[s] <= FAST_BITS {
      assert w <= p;
      assert LooksUp(look, p, 512 * lens[s] + s);
    } else {
      NodesAbove(look, tree, nodes, lens, |lens|, Parent(w), FAST_BITS);
      assert Parent(w)[..FAST_BITS] == p;
      TrieNode(look, tree, nodes, lens, |lens|, p);
      DownFinds(look, tree, nodes, lens, |lens|, s, bits, FAST_BITS);
    }
  }

  /** The entry the bits lead to is overwritten. */
  ghost predicate Wrote(look: seq<int>, tree: seq<int>, look': seq<int>, tree': seq<int>, nodes: Nodes, p: Bits, v: int) {
    && Placed(nodes, p)
    && if |p| == FAST_BITS then Val(p) < |look| && look' == look[Val(p) := v] && tree' == tree
       else SlotOf(nodes, p) < |tree| && look' == look && tree' == tree[SlotOf(nodes, p) := v]
  }

  /** Different bits lead to different entries. */
  lemma WroteEntry(look: seq<int>, tree: seq<int>, look': seq<int>, tree': seq<int>, nodes: Nodes, size: nat,
                   p: Bits, v: int, q: Bits)
    requires Wrote(look, tree, look', tree', nodes, p, v) && Numbered(nodes, size) && Placed(nodes, q)
    ensures Entry(look', tree', nodes, q) == if q == p then v else Entry(look, tree, nodes, q)
  {
    hide Val;
    if |q| == FAST_BITS && |p| == FAST_BITS {
      if Val(p) == Val(q) {
        LowVal(p);
        LowVal(q);
      }
    } else if |q| > FAST_BITS && |p| > FAST_BITS && SlotOf(nodes, p) == SlotOf(nodes, q) {
      SlotsDiffer(nodes, size, p, q);
    }
  }

  lemma SlotsDiffer(nodes: Nodes, size: nat, p: Bits, q: Bits)
    requires Numbered(nodes, size) && |p| > FAST_BITS && |q| > FAST_BITS && Parent(p) in nodes && Parent(q) in nodes
    requires SlotOf(nodes, p) == SlotOf(nodes, q)
    ensures p == q
  {
    assert nodes[Parent(p)] == nodes[Parent(q)];
    assert Parent(p) == Parent(q);
    assert p == Parent(p) + [p[|p| - 1]] && q == Parent(q) + [q[|q| - 1]];
  }

  /** The entry says whether there is a node: only a longer word can lead here. */
  lemma EntryTells(look: seq<int>, tree: seq<int>, nodes: Nodes, lens: Lengths, n: nat, p: Bits)
    requires Trie(look, tree, nodes, lens, n) && Fits(lens) && Placed(nodes, p) && InnerOf(lens, p, n)
    ensures (Entry(look, tree, nodes, p) == 0) == (p !in nodes)
    ensures p in nodes ==> Entry(look, tree, nodes, p) == Pointer(nodes[p])
  {
    if p in nodes {
      TrieNode(look, tree, nodes, lens, n, p);
    } else {
      NotTaken(lens, n, p);
    }
  }

  lemma NotTaken(lens: Lengths, n: nat, p: Bits)
    requires Fits(lens) && InnerOf(lens, p, n)
    ensures !Taken(lens, n, p)
    ensures forall s: nat :: s < n && Used(lens, s) ==> !(CodeWord(lens, s) <= p)
  {
    forall s: nat | s < n && Used(lens, s)
      ensures !(CodeWord(lens, s) <= p)
    {
      if CodeWord(lens, s) <= p { PrefixFree(lens, s, n); }
    }
  }

  /** The new node's entries. */
  lemma AddedEntry(look: seq<int>, tree: seq<int>, look': seq<int>, tree': seq<int>, nodes: Nodes, lens: Lengths,
                   n: nat, p: Bits, q: Bits)
    requires Trie(look, tree, nodes, lens, n) && p !in nodes && 2 * |nodes| + 1 < |tree|
    requires Wrote(look, tree, look', tree', nodes, p, Pointer(|nodes|)) && Placed(nodes[p := |nodes|], q)
    ensures Entry(look', tree', nodes[p := |nodes|], q)
         == if q == p then Pointer(|nodes|)
            else if Placed(nodes, q) then Entry(look, tree, nodes, q) else 0
  {
    hide Trie, NodeAt;
    TrieRoom(look, tree, nodes, lens, n, p);
    if Placed(nodes, q) {
      WroteEntry(look, tree, look', tree', nodes, |tree|, p, Pointer(|nodes|), q);
    } else {
      assert Parent(q) == p;
    }
  }

  lemma TrieRoom(look: seq<int>, tree: seq<int>, nodes: Nodes, lens: Lengths, n: nat, p: Bits)
    requires Trie(look, tree, nodes, lens, n) && Placed(nodes, p)
    ensures Numbered(nodes, |tree|) && forall i :: 2 * |nodes| <= i < |tree| ==> tree[i] == 0
    ensures |p| > FAST_BITS ==> SlotOf(nodes, p) < 2 * |nodes|
  {
    assert |p| > FAST_BITS ==> NodeAt(nodes, Parent(p), |tree|);
  }

  lemma AddedNode(look: seq<int>, tree: seq<int>, look': seq<int>, tree': seq<int>, nodes: Nodes, lens: Lengths,
                  n: nat, p: Bits)
    requires Trie(look, tree, nodes, lens, n) && p !in nodes && 2 * |nodes| + 1 < |tree| && Fits(lens)
    requires Wrote(look, tree, look', tree', nodes, p, Pointer(|nodes|)) && InnerOf(lens, p, n)
    ensures Trie(look', tree', nodes[p := |nodes|], lens, n)
  {
    hide Trie;
    var nodes' := nodes[p := |nodes|];
    AddedNumbered(look, tree, nodes, lens, n, p);
    AddedPoints(look, tree, look', tree', nodes, lens, n, p);
    AddedLeads(look, tree, look', tree', nodes, lens, n, p);
    AddedVacant(look, tree, look', tree', nodes, lens, n, p);
    TrieParts(look', tree', nodes', lens, n);
  }

  lemma TrieParts(look: seq<int>, tree: seq<int>, nodes: Nodes, lens: Lengths, n: nat)
    requires |look| == FAST_SIZE && Numbered(nodes, |tree|) && Points(look, tree, nodes) && AllInner(lens, nodes)
    requires AllLead(look, tree, nodes, lens, n) && Vacant(look, tree, nodes, lens, n)
    ensures Trie(look, tree, nodes, lens, n)
  {
  }

  lemma AddedNumbered(look: seq<int>, tree: seq<int>, nodes: Nodes, lens: Lengths, n: nat, p: Bits)
    requires Trie(look, tree, nodes, lens, n) && p !in nodes && 2 * |nodes| + 1 < |tree|
    requires InnerOf(lens, p, n) && Placed(nodes, p)
    ensures Numbered(nodes[p := |nodes|], |tree|) && AllInner(lens, nodes[p := |nodes|]) && |look| == FAST_SIZE
  {
    var nodes' := nodes[p := |nodes|];
    assert |nodes'| == |nodes| + 1;
    forall q | q in nodes'
      ensures NodeAt(nodes', q, |tree|)
    {
      if q != p { assert NodeAt(nodes, q, |tree|); }
    }
    assert forall q :: q in nodes ==> nodes[q] < |nodes| by {
      forall q | q in nodes ensures nodes[q] < |nodes| { assert NodeAt(nodes, q, |tree|); }
    }
    assert Inner(lens, p);
  }

  lemma AddedPoints(look: seq<int>, tree: seq<int>, look': seq<int>, tree': seq<int>, nodes: Nodes, lens: Lengths,
                    n: nat, p: Bits)
    requires Trie(look, tree, nodes, lens, n) && p !in nodes && 2 * |nodes| + 1 < |tree|
    requires Wrote(look, tree, look', tree', nodes, p, Pointer(|nodes|))
    ensures Points(look', tree', nodes[p := |nodes|]) && |look'| == |look| && |tree'| == |tree|
  {
    hide Trie;
    var nodes' := nodes[p := |nodes|];
    forall q | q in nodes'
      ensures PointsAt(look', tree', nodes', q)
    {
      if q != p { TrieNode(look, tree, nodes, lens, n, q); }
      AddedEntry(look, tree, look', tree', nodes, lens, n, p, q);
    }
  }

  lemma AddedLeads(look: seq<int>, tree: seq<int>, look': seq<int>, tree': seq<int>, nodes: Nodes, lens: Lengths,
                   n: nat, p: Bits)
    requires Trie(look, tree, nodes, lens, n) && p !in nodes && 2 * |nodes| + 1 < |tree| && Fits(lens)
    requires Wrote(look, tree, look', tree', nodes, p, Pointer(|nodes|)) && InnerOf(lens, p, n)
    ensures AllLead(look', tree', nodes[p := |nodes|], lens, n)
  {
    hide Trie, Fits, CodeWord;
    var nodes' := nodes[p := |nodes|];
    NotTaken(lens, n, p);
    forall s: nat | Used(lens, s) && s < n
      ensures Leads(look', tree', nodes', lens, s)
    {
      TrieLeads(look, tree, nodes, lens, n, s);
      var w := CodeWord(lens, s);
      if lens[s] <= FAST_BITS {
        forall q: Bits | |q| == FAST_BITS && w <= q
          ensures LooksUp(look', q, 512 * lens[s] + s)
        {
          assert LooksUp(look, q, 512 * lens[s] + s);
          if |p| == FAST_BITS && Val(q) == Val(p) {
            LowVal(p);
            LowVal(q);
          }
        }
      } else {
        AddedEntry(look, tree, look', tree', nodes, lens, n, p, w);
      }
    }
  }

  lemma AddedVacant(look: seq<int>, tree: seq<int>, look': seq<int>, tree': seq<int>, nodes: Nodes, lens: Lengths,
                    n: nat, p: Bits)
    requires Trie(look, tree, nodes, lens, n) && p !in nodes && 2 * |nodes| + 1 < |tree|
    requires Wrote(look, tree, look', tree', nodes, p, Pointer(|nodes|))
    ensures Vacant(look', tree', nodes[p := |nodes|], lens, n)
  {
    var nodes' := nodes[p := |nodes|];
    forall q: Bits | Placed(nodes', q) && q !in nodes' && !Taken(lens, n, q)
      ensures Entry(look', tree', nodes', q) == 0
    {
      AddedEntry(look, tree, look', tree', nodes, lens, n, p, q);
    }
    assert |p| > FAST_BITS ==> NodeAt(nodes, Parent(p), |tree|);
  }

  /** The last bit of a long word leads to its symbol. */
  lemma AddedLeaf(look: seq<int>, tree: seq<int>, look': seq<int>, tree': seq<int>, nodes: Nodes, lens: Lengths, n: nat)
    requires Trie(look, tree, nodes, lens, n) && Fits(lens) && Used(lens, n) && lens[n] > FAST_BITS
    requires Wrote(look, tree, look', tree', nodes, CodeWord(lens, n), n)
    ensures Trie(look', tree', nodes, lens, n + 1)
  {
    hide Trie, Fits, CodeWord, NodeAt, Entry, Leads, PointsAt, Taken;
    var w := CodeWord(lens, n);
    TrieRoom(look, tree, nodes, lens, n, w);
    TrieClauses(look, tree, nodes, lens, n);
    forall q | q in nodes
      ensures PointsAt(look', tree', nodes, q)
    {
      LeafPoints(look, tree, look', tree', nodes, lens, n, q);
    }
    forall s: nat | Used(lens, s) && s < n + 1
      ensures Leads(look', tree', nodes, lens, s)
    {
      LeafLeads(look, tree, look', tree', nodes, lens, n, s);
    }
    forall q: Bits | Placed(nodes, q) && q !in nodes && !Taken(lens, n + 1, q)
      ensures Entry(look', tree', nodes, q) == 0
    {
      TakenMore(lens, n, q);
      WroteEntry(look, tree, look', tree', nodes, |tree|, w, n, q);
      VacantAt(look, tree, nodes, lens, n, q);
    }
    TrieParts(look', tree', nodes, lens, n + 1);
  }

  lemma LeafPoints(look: seq<int>, tree: seq<int>, look': seq<int>, tree': seq<int>, nodes: Nodes, lens: Lengths,
                   n: nat, q: Bits)
    requires Trie(look, tree, nodes, lens, n) && Fits(lens) && Used(lens, n) && lens[n] > FAST_BITS && q in nodes
    requires Wrote(look, tree, look', tree', nodes, CodeWord(lens, n), n)
    ensures PointsAt(look', tree', nodes, q)
  {
    hide Trie, Fits, CodeWord, NodeAt, Entry;
    var w := CodeWord(lens, n);
    TrieClauses(look, tree, nodes, lens, n);
    TrieNode(look, tree, nodes, lens, n, q);
    NodeNoWord(lens, nodes, q, n);
    NodePlaced(nodes, q, |tree|);
    WroteEntry(look, tree, look', tree', nodes, |tree|, w, n, q);
  }

  lemma LeafLeads(look: seq<int>, tree: seq<int>, look': seq<int>, tree': seq<int>, nodes: Nodes, lens: Lengths,
                  n: nat, s: nat)
    requires Trie(look, tree, nodes, lens, n) && Fits(lens) && Used(lens, n) && lens[n] > FAST_BITS
    requires Wrote(look, tree, look', tree', nodes, CodeWord(lens, n), n) && Used(lens, s) && s <= n
    ensures Leads(look', tree', nodes, lens, s)
  {
    hide Trie, Fits, CodeWord, NodeAt, Entry;
    var w := CodeWord(lens, n);
    TrieClauses(look, tree, nodes, lens, n);
    if s < n {
      TrieLeads(look, tree, nodes, lens, n, s);
      if lens[s] > FAST_BITS {
        WroteEntry(look, tree, look', tree', nodes, |tree|, w, n, CodeWord(lens, s));
        if CodeWord(lens, s) == w { PrefixFree(lens, s, n); }
      }
    } else {
      WroteEntry(look, tree, look', tree', nodes, |tree|, w, n, w);
    }
  }

  lemma TrieClauses(look: seq<int>, tree: seq<int>, nodes: Nodes, lens: Lengths, n: nat)
    requires Trie(look, tree, nodes, lens, n)
    ensures |look| == FAST_SIZE && Numbered(nodes, |tree|) && AllInner(lens, nodes)
  {
  }

  lemma NodePlaced(nodes: Nodes, q: Bits, size: nat)
    requires q in nodes && NodeAt(nodes, q, size)
    ensures Placed(nodes, q)
  {
  }

  lemma VacantAt(look: seq<int>, tree: seq<int>, nodes: Nodes, lens: Lengths, n: nat, q: Bits)
    requires Trie(look, tree, nodes, lens, n) && Placed(nodes, q) && q !in nodes && !Taken(lens, n, q)
    ensures Entry(look, tree, nodes, q) == 0
  {
  }

  lemma TakenMore(lens: Lengths, n: nat, q: Bits)
    requires !Taken(lens, n + 1, q)
    ensures !Taken(lens, n, q) && (Used(lens, n) ==> !(CodeWord(lens, n) <= q))
  {
  }

  /** No word begins a node. */
  lemma NodeNoWord(lens: Lengths, nodes: Nodes, q: Bits, n: nat)
    requires AllInner(lens, nodes) && q in nodes && Fits(lens) && Used(lens, n)
    ensures !(CodeWord(lens, n) <= q)
  {
    var t: nat :| InnerOf(lens, q, t);
    if CodeWord(lens, n) <= q { PrefixFree(lens, n, t); }
  }

  /** A short word fills every entry that begins with it. */
  ghost predicate Filled(look: seq<int>, look': seq<int>, w: Bits, v: int) {
    && |look| == |look'| == FAST_SIZE
    && forall p: Bits :: |p| == FAST_BITS ==> FilledAt(look, look', w, v, p)
  }

  ghost predicate FilledAt(look: seq<int>, look': seq<int>, w: Bits, v: int, p: Bits)
    requires |look| == |look'| == FAST_SIZE && |p| == FAST_BITS
  {
    ValFast(p);
    look'[Val(p)] == if w <= p then v else look[Val(p)]
  }

  lemma AddedShort(look: seq<int>, tree: seq<int>, look': seq<int>, nodes: Nodes, lens: Lengths, n: nat)
    requires Trie(look, tree, nodes, lens, n) && Fits(lens) && Used(lens, n) && lens[n] <= FAST_BITS
    requires Filled(look, look', CodeWord(lens, n), 512 * lens[n] + n)
    ensures Trie(look', tree, nodes, lens, n + 1)
  {
    hide Trie, Fits, CodeWord, NodeAt;
    var w, v := CodeWord(lens, n), 512 * lens[n] + n;
    TrieClauses(look, tree, nodes, lens, n);
    forall q | q in nodes
      ensures PointsAt(look', tree, nodes, q)
    {
      TrieNode(look, tree, nodes, lens, n, q);
      NodeNoWord(lens, nodes, q, n);
      NodePlaced(nodes, q, |tree|);
      if |q| == FAST_BITS { assert FilledAt(look, look', w, v, q); }
    }
    forall s: nat | Used(lens, s) && s < n + 1
      ensures Leads(look', tree, nodes, lens, s)
    {
      ShortLeads(look, tree, look', nodes, lens, n, s);
    }
    TrieTail(look, tree, nodes, lens, n);
    forall q: Bits | Placed(nodes, q) && q !in nodes && !Taken(lens, n + 1, q)
      ensures Entry(look', tree, nodes, q) == 0
    {
      TakenMore(lens, n, q);
      VacantAt(look, tree, nodes, lens, n, q);
      if |q| == FAST_BITS { assert FilledAt(look, look', w, v, q); }
    }
    TrieParts(look', tree, nodes, lens, n + 1);
  }

  lemma TrieTail(look: seq<int>, tree: seq<int>, nodes: Nodes, lens: Lengths, n: nat)
    requires Trie(look, tree, nodes, lens, n)
    ensures forall i :: 2 * |nodes| <= i < |tree| ==> tree[i] == 0
  {
  }

  lemma ShortLeads(look: seq<int>, tree: seq<int>, look': seq<int>, nodes: Nodes, lens: Lengths, n: nat, s: nat)
    requires Trie(look, tree, nodes, lens, n) && Fits(lens) && Used(lens, n) && lens[n] <= FAST_BITS
    requires Filled(look, look', CodeWord(lens, n), 512 * lens[n] + n) && Used(lens, s) && s <= n
    ensures Leads(look', tree, nodes, lens, s)
  {
    hide Trie, Fits, CodeWord, NodeAt;
    if s < n { TrieLeads(look, tree, nodes, lens, n, s); }
    if lens[s] <= FAST_BITS {
      forall p: Bits | |p| == FAST_BITS && CodeWord(lens, s) <= p
        ensures LooksUp(look', p, 512 * lens[s] + s)
      {
        assert FilledAt(look, look', CodeWord(lens, n), 512 * lens[n] + n, p);
        if s < n {
          assert LooksUp(look, p, 512 * lens[s] + s);
          if CodeWord(lens, n) <= p { SamePrefix(lens, s, n, p); }
        }
      }
    }
  }

  lemma AddedNothing(look: seq<int>, tree: seq<int>, nodes: Nodes, lens: Lengths, n: nat)
    requires Trie(look, tree, nodes, lens, n) && !Used(lens, n)
    ensures Trie(look, tree, nodes, lens, n + 1)
  {
    assert forall p: Bits :: !Taken(lens, n + 1, p) ==> !Taken(lens, n, p);
  }

  lemma EmptyTrie(look: seq<int>, tree: seq<int>, lens: Lengths)
    requires |look| == FAST_SIZE && (forall i :: 0 <= i < |look| ==> look[i] == 0)
    requires forall i :: 0 <= i < |tree| ==> tree[i] == 0
    ensures Trie(look, tree, map[], lens, 0)
  {
    var nodes: Nodes := map[];
    forall p: Bits | Placed(nodes, p)
      ensures Entry(look, tree, nodes, p) == 0
    {
      ValFast(p);
    }
  }

  /** How much of the code space is left after the codes of up to `l` bits. */
  function Room(lens: Lengths, l: nat): int { Pow2(l) - First(lens, l) - Total(lens, l) }

  lemma {:induction false} LevelCard(ps: set<Bits>, l: nat, a: nat)
    requires forall p :: p in ps ==> |p| == l && a <= Num(p)
    requires a <= Pow2(l)
    ensures |ps| <= Pow2(l) - a
    decreases Pow2(l) - a
  {
    if a == Pow2(l) {
      assert forall p :: p in ps ==> |p| == l && Num(p) < Pow2(l) && a <= Num(p);
      assert ps == {};
    } else {
      var w := Word(a, l);
      var rest := ps - {w};
      forall p | p in rest
        ensures |p| == l && a + 1 <= Num(p)
      {
        if Num(p) == a { WordNum(p); }
      }
      LevelCard(rest, l, a + 1);
      assert ps <= rest + {w};
      CardWithin(ps, rest + {w});
    }
  }

  lemma CardWithin<T>(a: set<T>, b: set<T>)
    requires a <= b
    ensures |a| <= |b|
  {
    assert b == a + (b - a);
  }

  function AtLevel(ps: set<Bits>, l: nat): set<Bits> { set p | p in ps && |p| == l }

  function UpTo(ps: set<Bits>, l: nat): set<Bits> { set p | p in ps && |p| <= l }

  lemma UpToStep(ps: set<Bits>, l: nat)
    requires l > 0
    ensures |UpTo(ps, l)| <= |UpTo(ps, l - 1)| + |AtLevel(ps, l)|
  {
    assert UpTo(ps, l) == UpTo(ps, l - 1) + AtLevel(ps, l);
  }

  /** The beginnings of longer words lie above the codes of their length. */
  lemma InnerLevel(lens: Lengths, ps: set<Bits>, l: nat)
    requires Fits(lens) && (forall p :: p in ps ==> Inner(lens, p)) && FAST_BITS <= l < MAX_BITS
    ensures |AtLevel(ps, l)| <= Room(lens, l)
  {
    var level := AtLevel(ps, l);
    assert FitsAt(lens, l);
    forall p | p in level
      ensures |p| == l && First(lens, l) + Total(lens, l) <= Num(p)
    {
      var t: nat :| InnerOf(lens, p, t);
      assert CodeWord(lens, t)[..l] == p;
      PrefixAbove(lens, t, l);
    }
    LevelCard(level, l, First(lens, l) + Total(lens, l));
  }

  function SumRoom(lens: Lengths, l: nat): int {
    if l < FAST_BITS then 0 else SumRoom(lens, l - 1) + Room(lens, l)
  }

  lemma {:induction false} SumRoomIs(lens: Lengths, l: nat)
    requires l >= FAST_BITS
    ensures SumRoom(lens, l)
         == UsedUpTo(lens, l + 1) - UsedUpTo(lens, FAST_BITS) - Room(lens, FAST_BITS) + Room(lens, l + 1)
    decreases l
  {
    assert Pow2(l + 1) == 2 * Pow2(l);
    assert First(lens, l + 1) == 2 * (First(lens, l) + Total(lens, l));
    if l > FAST_BITS {
      SumRoomIs(lens, l - 1);
    } else {
      assert SumRoom(lens, l - 1) == 0;
    }
  }

  lemma {:induction false} InnerUpTo(lens: Lengths, ps: set<Bits>, l: nat)
    requires Fits(lens) && (forall p :: p in ps ==> Inner(lens, p)) && FAST_BITS - 1 <= l < MAX_BITS
    ensures |UpTo(ps, l)| <= SumRoom(lens, l)
    decreases l
  {
    if l < FAST_BITS {
      forall p | p in ps
        ensures |p| > l
      {
        var t: nat :| InnerOf(lens, p, t);
      }
      assert UpTo(ps, l) == {};
    } else {
      InnerUpTo(lens, ps, l - 1);
      InnerLevel(lens, ps, l);
      UpToStep(ps, l);
    }
  }

  /** Of all symbols, those used. */
  function UsedIn(lens: Lengths, l: nat, n: nat): nat
    requires n <= |lens|
  {
    if l == 0 then 0 else UsedIn(lens, l - 1, n) + Count(lens, l, n)
  }

  lemma {:induction false} UsedInIs(lens: Lengths, l: nat)
    ensures UsedIn(lens, l, |lens|) == UsedUpTo(lens, l)
  {
    if l > 0 { UsedInIs(lens, l - 1); }
  }

  lemma {:induction false} UsedInStep(lens: Lengths, l: nat, n: nat)
    requires n < |lens|
    ensures UsedIn(lens, l, n + 1) == UsedIn(lens, l, n) + if 1 <= lens[n] <= l then 1 else 0
  {
    if l > 0 { UsedInStep(lens, l - 1, n); }
  }

  lemma {:induction false} UsedInMost(lens: Lengths, l: nat, n: nat)
    requires n <= |lens|
    ensures UsedIn(lens, l, n) <= n
  {
    if n > 0 {
      UsedInMost(lens, l, n - 1);
      UsedInStep(lens, l, n - 1);
    } else {
      UsedInNone(lens, l);
    }
  }

  lemma {:induction false} UsedInNone(lens: Lengths, l: nat)
    ensures UsedIn(lens, l, 0) == 0
  {
    if l > 0 { UsedInNone(lens, l - 1); }
  }

  lemma {:induction false} UsedInGrows(lens: Lengths, l: nat, m: nat, n: nat)
    requires m <= n <= |lens|
    ensures UsedIn(lens, l, m) <= UsedIn(lens, l, n)
    decreases n
  {
    if m < n {
      UsedInStep(lens, l, n - 1);
      UsedInGrows(lens, l, m, n - 1);
    }
  }

  /** Only one symbol in use. */
  lemma OnlyOne(lens: Lengths, s: nat, t: nat)
    requires UsedUpTo(lens, MAX_BITS) <= 1 && Used(lens, s) && Used(lens, t)
    ensures s == t
  {
    UsedInIs(lens, MAX_BITS);
    if s < t { TwoUsed(lens, s, t); }
    if t < s { TwoUsed(lens, t, s); }
  }

  lemma TwoUsed(lens: Lengths, s: nat, t: nat)
    requires Used(lens, s) && Used(lens, t) && s < t
    ensures UsedIn(lens, MAX_BITS, |lens|) >= 2
  {
    UsedInStep(lens, MAX_BITS, s);
    UsedInStep(lens, MAX_BITS, t);
    UsedInGrows(lens, MAX_BITS, s + 1, t);
    UsedInGrows(lens, MAX_BITS, t + 1, |lens|);
  }

  lemma FewLevel(lens: Lengths, ps: set<Bits>, l: nat)
    requires UsedUpTo(lens, MAX_BITS) <= 1 && forall p :: p in ps ==> Inner(lens, p)
    ensures |AtLevel(ps, l)| <= 1
  {
    var level := AtLevel(ps, l);
    if level != {} {
      var p :| p in level;
      forall q | q in level
        ensures q == p
      {
        var s: nat :| InnerOf(lens, p, s);
        var t: nat :| InnerOf(lens, q, t);
        OnlyOne(lens, s, t);
      }
      assert level == {p};
    }
  }

  lemma {:induction false} FewUpTo(lens: Lengths, ps: set<Bits>, l: nat)
    requires UsedUpTo(lens, MAX_BITS) <= 1 && (forall p :: p in ps ==> Inner(lens, p)) && l >= FAST_BITS - 1
    ensures |UpTo(ps, l)| <= l - (FAST_BITS - 1)
    decreases l
  {
    if l < FAST_BITS {
      forall p | p in ps
        ensures |p| > l
      {
        var t: nat :| InnerOf(lens, p, t);
      }
      assert UpTo(ps, l) == {};
    } else {
      FewUpTo(lens, ps, l - 1);
      FewLevel(lens, ps, l);
      UpToStep(ps, l);
    }
  }

  /** What the tables are built for: a complete code, or one that has no two words. */
  predicate Buildable(lens: Lengths) { Complete(lens) || UsedUpTo(lens, MAX_BITS) <= 1 }

  lemma BuildableFits(lens: Lengths)
    requires Buildable(lens)
    ensures Fits(lens)
  {
    if Complete(lens) { CompleteFits(lens); } else { FewFits(lens); }
  }

  /** A tree of two entries for each symbol is large enough. */
  lemma NodesFit(lens: Lengths, ps: set<Bits>)
    requires Buildable(lens) && forall p :: p in ps ==> Inner(lens, p)
    ensures |ps| <= |lens| || |ps| <= 5
  {
    BuildableFits(lens);
    assert UpTo(ps, 14) == ps by {
      forall p | p in ps
        ensures |p| <= 14
      {
        var t: nat :| InnerOf(lens, p, t);
      }
    }
    if Complete(lens) {
      InnerUpTo(lens, ps, 14);
      SumRoomIs(lens, 14);
      LastRoom(lens);
      assert FitsAt(lens, FAST_BITS);
      UsedInIs(lens, MAX_BITS);
      UsedInMost(lens, MAX_BITS, |lens|);
    } else {
      FewUpTo(lens, ps, 14);
    }
  }

  /** So there is room for one more node. */
  lemma NodeFits(look: seq<int>, tree: seq<int>, nodes: Nodes, lens: Lengths, n: nat, p: Bits)
    requires Trie(look, tree, nodes, lens, n) && Buildable(lens) && InnerOf(lens, p, n) && p !in nodes
    requires |tree| >= 2 * |lens| && |tree| >= 10
    ensures 2 * |nodes| + 1 < |tree|
  {
    hide Numbered, Points, AllLead, Vacant, Buildable;
    var ps := nodes.Keys + {p};
    assert Inner(lens, p);
    assert forall q :: q in ps ==> Inner(lens, q);
    NodesFit(lens, ps);
    assert |ps| == |nodes| + 1;
  }
}
