/** Building the decoding tables in place, decoding with them, and the
    encoder's assignment of the same codes. */
module HuffmanTables {
  import opened HuffmanCode
  import opened HuffmanTree

  /** The codes of each length, as total_syms and num_codes hold them. */
  method CountLengths(lens: Lengths) returns (total: seq<nat>)
    ensures |total| == MAX_BITS + 1 && forall l :: 0 <= l <= MAX_BITS ==> total[l] == Total(lens, l)
  {
    total := seq(MAX_BITS + 1, _ => 0);
    var i := 0;
    while i < |lens|
      invariant 0 <= i <= |lens| && |total| == MAX_BITS + 1
      invariant forall l :: 0 <= l <= MAX_BITS ==> total[l] == Count(lens, l, i)
    {
      total := total[lens[i] := total[lens[i]] + 1];
      i := i + 1;
    }
  }

  /** The first code of each length, and whether the code is one the decoder takes. */
  method FirstCodes(lens: Lengths) returns (ok: bool, next: seq<nat>)
    ensures ok <==> Buildable(lens)
    ensures |next| == MAX_BITS + 2 && forall l :: 1 <= l <= MAX_BITS ==> next[l] == First(lens, l)
  {
    hide Pow2, Count, First;
    var totals := CountLengths(lens);
    FirstStep(lens);
    next := seq(MAX_BITS + 2, _ => 0);
    var used, total, i := 0, 0, 1;
    while i <= MAX_BITS
      invariant 1 <= i <= MAX_BITS + 1 && |next| == MAX_BITS + 2
      invariant used == UsedUpTo(lens, i - 1) && total == First(lens, i)
      invariant forall l :: 1 <= l <= i ==> next[l] == First(lens, l)
    {
      used := used + totals[i];
      total := (total + totals[i]) * 2;
      next := next[i + 1 := total];
      i := i + 1;
    }
    Pow2Of16();
    ok := !(65536 != total && used > 1);
  }

  lemma Pow2Of16()
    ensures Pow2(16) == 65536 && Pow2(10) == 1024
  {
    assert Pow2(4) == 16;
    assert Pow2(8) == 256;
    assert Pow2(12) == 4096;
  }

  /** The bits of a code turned round: what was sent first is lowest. */
  method Reverse(code: nat, size: nat) returns (rev: nat)
    ensures rev == Val(Word(code, size))
  {
    ghost var w := Word(code, size);
    var cur, l := code, size;
    rev := 0;
    assert w[size..] == [] && w[..size] == w;
    while l > 0
      invariant 0 <= l <= size && Word(cur, l) == w[..l] && rev == Val(w[l..])
    {
      assert w[l - 1] == w[..l][l - 1] == (cur % 2 == 1);
      assert w[..l][..l - 1] == w[..l - 1] && Word(cur, l)[..l - 1] == Word(cur / 2, l - 1);
      assert w[l - 1..][1..] == w[l..];
      rev := 2 * rev + cur % 2;
      cur := cur / 2;
      l := l - 1;
    }
    assert w[0..] == w;
  }

  lemma SameRest(a: nat, b: nat, p: nat)
    requires p > 0 && a <= b < a + p && a % p == b % p
    ensures a == b
  {
    var q, r := a / p, a % p;
    if a < b {
      var d := b - a;
      if r + d < p {
        ModUnique(b, p, q, r + d);
      } else {
        assert p * (q + 1) == p * q + p;
        ModUnique(b, p, q + 1, r + d - p);
      }
    }
  }

  lemma RestAgain(a: nat, p: nat)
    requires p > 0
    ensures (a + p) % p == a % p
  {
    assert p * (a / p + 1) == p * (a / p) + p;
    ModUnique(a + p, p, a / p + 1, a % p);
  }

  /** The entries below `upto` that end in the word hold `v`. */
  ghost predicate FilledBelow(was: seq<int>, now: seq<int>, r: nat, p: nat, v: int, upto: nat)
    requires p > 0
  {
    && |was| == |now| == FAST_SIZE
    && forall i :: 0 <= i < FAST_SIZE ==> now[i] == if i < upto && i % p == r then v else was[i]
  }

  lemma FilledAll(was: seq<int>, now: seq<int>, w: Bits, v: int, upto: nat)
    requires |w| <= FAST_BITS && FilledBelow(was, now, Val(w), Pow2(|w|), v, upto) && upto >= FAST_SIZE
    ensures Filled(was, now, w, v)
  {
    hide Val, Pow2;
    forall p: Bits | |p| == FAST_BITS
      ensures FilledAt(was, now, w, v, p)
    {
      ValFast(p);
      BeginsWith(w, p);
    }
  }

  lemma BeginsWith(w: Bits, p: Bits)
    requires |w| <= |p|
    ensures w <= p <==> Val(p) % Pow2(|w|) == Val(w)
  {
    hide Val, Pow2;
    ValTake(p, |w|);
    LowVal(p[..|w|]);
    LowVal(w);
    assert w <= p <==> p[..|w|] == w;
  }

  /** Every entry that begins with a short word gets its symbol. */
  method Fill(look: array<int>, first: nat, size: nat, v: int, ghost w: Bits)
    requires look.Length == FAST_SIZE && |w| == size <= FAST_BITS && first == Val(w)
    modifies look
    ensures Filled(old(look[..]), look[..], w, v)
  {
    hide Pow2, Val, Filled, FilledBelow;
    ghost var was := look[..];
    var rev, step := first, Power(size);
    ModUnique(first, step, 0, first);
    NothingBelow(was, first, step, v);
    while rev < FAST_SIZE
      invariant rev % step == first && step == Pow2(size)
      invariant FilledBelow(was, look[..], first, step, v, rev)
      decreases FAST_SIZE - rev
    {
      FillStep(was, look[..], look[..][rev := v], first, step, v, rev);
      look[rev] := v;
      RestAgain(rev, step);
      rev := rev + step;
    }
    FilledAll(was, look[..], w, v, rev);
  }

  function Power(k: nat): (p: nat)
    ensures p == Pow2(k)
  {
    Pow2(k)
  }

  lemma FillStep(was: seq<int>, now: seq<int>, next: seq<int>, r: nat, p: nat, v: int, rev: nat)
    requires p > 0 && rev < FAST_SIZE && rev % p == r && |was| == |now| == FAST_SIZE && next == now[rev := v]
    requires FilledBelow(was, now, r, p, v, rev)
    ensures FilledBelow(was, next, r, p, v, rev + p)
  {
    forall i | 0 <= i < FAST_SIZE
      ensures next[i] == if i < rev + p && i % p == r then v else was[i]
    {
      if rev <= i < rev + p && i % p == r { SameRest(rev, i, p); }
    }
  }

  lemma NothingBelow(was: seq<int>, r: nat, p: nat, v: int)
    requires |was| == FAST_SIZE && r < p
    ensures FilledBelow(was, was, r, p, v, r)
  {
    forall i | 0 <= i < r
      ensures i % p != r
    {
      ModUnique(i, p, 0, i);
    }
  }

  /** Decoding tables for one code. */
  class Tables {
    const look: array<int>  // pLookUp
    const tree: array<int>  // pTree
    var treeNext: int
    ghost var nodes: Nodes
    ghost var lens: Lengths
    ghost var done: nat

    /** The first `done` symbols are entered. */
    ghost predicate Valid()
      reads this, look, tree
    {
      && look.Length == FAST_SIZE && look != tree
      && tree.Length >= 2 * |lens| && tree.Length >= 10
      && Buildable(lens) && done <= |lens| <= 512
      && treeNext == Pointer(|nodes|)
      && Trie(look[..], tree[..], nodes, lens, done)
    }

    constructor (lens: Lengths, size: nat)
      requires size >= 2 * |lens| && size >= 10 && |lens| <= 512 && Buildable(lens)
      ensures Valid() && this.lens == lens && done == 0 && fresh(look) && fresh(tree) && tree.Length == size
    {
      hide Trie, Buildable;
      look := new int[FAST_SIZE](_ => 0);
      tree := new int[size](_ => 0);
      treeNext, nodes, this.lens, done := -1, map[], lens, 0;
      new;
      EmptyTrie(look[..], tree[..], lens);
    }

    /** Where the bits lead, the node there being made if there was none. */
    method Enter(at: nat, inTree: bool, ghost p: Bits) returns (cur: int)
      requires Valid() && InnerOf(lens, p, done) && Placed(nodes, p) && inTree == (|p| > FAST_BITS)
      requires at == if inTree then SlotOf(nodes, p) else Val(p)
      modifies this`treeNext, this`nodes, look, tree
      ensures Valid() && p in nodes && cur == Pointer(nodes[p])
    {
      hide Trie, InnerOf, Buildable, Entry;
      ghost var v := treeNext;
      BuildableFits(lens);
      EntryTells(look[..], tree[..], nodes, lens, done, p);
      EntryIs(look[..], tree[..], nodes, lens, done, p);
      cur := if inTree then tree[at] else look[at];
      if cur == 0 {
        NodeFits(look[..], tree[..], nodes, lens, done, p);
        if inTree {
          AddedNode(look[..], tree[..], look[..], tree[..][at := treeNext], nodes, lens, done, p);
          tree[at] := treeNext;
        } else {
          AddedNode(look[..], tree[..], look[..][at := treeNext], tree[..], nodes, lens, done, p);
          look[at] := treeNext;
        }
        nodes := nodes[p := |nodes|];
        cur := treeNext;
        treeNext := treeNext - 2;
      }
    }

    /** The path of a code longer than the table's index. */
    method AddLong(sym: nat, rev: nat, size: nat)
      requires Valid() && sym == done && Used(lens, done) && lens[done] == size > FAST_BITS && rev == Val(CodeWord(lens, done))
      modifies this, look, tree
      ensures Valid() && lens == old(lens) && done == old(done) + 1
    {
      hide Trie, CodeWord, Buildable, Entry, Pow2, Val, SlotOf;
      ghost var w := CodeWord(lens, done);
      FirstBits(w, rev);
      InnerAt(lens, done, FAST_BITS);
      var cur := Enter(rev % FAST_SIZE, false, w[..FAST_BITS]);
      var r, j: nat := rev / 512, size;
      ghost var l := FAST_BITS;
      while j > FAST_BITS + 1
        invariant l == FAST_BITS + (size - j) && FAST_BITS + 1 <= j <= size
        invariant Valid() && lens == old(lens) && done == old(done) && r == Val(w[l - 1..])
        invariant w[..l] in nodes && cur == Pointer(nodes[w[..l]])
      {
        NextBit(w, l, r);
        BitSlot(nodes, w, l, cur);
        InnerAt(lens, done, l + 1);
        r := r / 2;
        cur := cur - r % 2;
        cur := Enter(-cur - 1, true, w[..l + 1]);
        l := l + 1;
        j := j - 1;
      }
      NextBit(w, l, r);
      BitSlot(nodes, w, l, cur);
      assert w[..l + 1] == w;
      EntryIs(look[..], tree[..], nodes, lens, done, w);
      r := r / 2;
      cur := cur - r % 2;
      BuildableFits(lens);
      AddedLeaf(look[..], tree[..], look[..], tree[..][-cur - 1 := done], nodes, lens, done);
      tree[-cur - 1] := sym;
      done := done + 1;
    }

    /** The entries of a code no longer than the table's index. */
    method AddShort(sym: nat, rev: nat, size: nat)
      requires Valid() && sym == done && Used(lens, done) && lens[done] == size <= FAST_BITS && rev == Val(CodeWord(lens, done))
      modifies this, look, tree
      ensures Valid() && lens == old(lens) && done == old(done) + 1
    {
      hide Trie, CodeWord, Buildable, Val, Filled;
      ghost var was := look[..];
      BuildableFits(lens);
      Fill(look, rev, size, 512 * size + sym, CodeWord(lens, done));
      AddedShort(was, tree[..], look[..], nodes, lens, done);
      done := done + 1;
    }

    /** A symbol without a code. */
    method Skip()
      requires Valid() && done < |lens| && lens[done] == 0
      modifies this
      ensures Valid() && lens == old(lens) && done == old(done) + 1
    {
      hide Trie, Buildable;
      AddedNothing(look[..], tree[..], nodes, lens, done);
      done := done + 1;
    }

    /** TINFL_HUFF_DECODE. With a complete code every buffer is decoded, and as
        decoding bit by bit against the first codes does it. */
    method Decode(bits: nat) returns (sym: nat, size: nat)
      requires Valid() && done == |lens|
      requires Complete(lens) || exists s: nat :: Reads(lens, s, bits)
      ensures Reads(lens, sym, bits) && size == lens[sym]
      ensures forall t: nat :: Reads(lens, t, bits) ==> t == sym
      ensures Complete(lens) ==> size == PlainLength(lens, Low(bits, MAX_BITS), 1)
    {
      hide Trie, CodeWord, Buildable, Find, Down, Low, Val, Pow2, Reads, Complete, PlainLength;
      if Complete(lens) { ghost var c := CompleteReads(lens, bits); }
      sym, size := FindSymbol(bits);
      forall t: nat | Reads(lens, t, bits)
        ensures t == sym
      {
        ReadsOnce(lens, sym, t, bits);
      }
    }

    /** The lookup, and the walk down the tree. */
    method FindSymbol(bits: nat) returns (sym: nat, size: nat)
      requires Valid() && done == |lens|
      requires exists s: nat :: Reads(lens, s, bits)
      ensures Reads(lens, sym, bits) && size == lens[sym]
    {
      hide Trie, CodeWord, Buildable, Find, Down, Low, Val, Pow2;
      ghost var s: nat :| Reads(lens, s, bits);
      ghost var w := Low(bits, MAX_BITS);
      TrieFinds(look[..], tree[..], nodes, lens, s, w);
      FindStarts(look[..], tree[..], bits, w);
      var temp := look[bits % FAST_SIZE];
      if temp >= 0 {
        return temp % 512, temp / 512;
      }
      var l: nat, rest := FAST_BITS, bits / FAST_SIZE;
      TenBits(bits);
      while temp < 0
        invariant FAST_BITS <= l <= MAX_BITS && rest == Div2(bits, l)
        invariant if temp < 0 then Down(tree[..], temp, w, l) == Symbol(s, lens[s])
                  else Symbol(temp, l) == Symbol(s, lens[s])
        decreases MAX_BITS - l
      {
        DownStep(tree[..], temp, w, l, s, lens[s]);
        LowAt(bits, MAX_BITS, l);
        DivAdds(bits, l, 1);
        temp := tree[-temp - 1 + rest % 2];
        rest := rest / 2;
        l := l + 1;
      }
      sym, size := temp, l;
    }
  }

  /** The word of `s` is what the bit buffer starts with. */
  predicate Reads(lens: Lengths, s: nat, bits: nat) {
    Used(lens, s) && CodeWord(lens, s) <= Low(bits, MAX_BITS)
  }

  lemma InnerAt(lens: Lengths, t: nat, l: nat)
    requires Used(lens, t) && FAST_BITS <= l < lens[t]
    ensures InnerOf(lens, CodeWord(lens, t)[..l], t)
  {
  }

  /** The index of the first ten bits, and what is left from the tenth on. */
  lemma FirstBits(w: Bits, rev: nat)
    requires |w| > FAST_BITS && rev == Val(w)
    ensures rev % FAST_SIZE == Val(w[..FAST_BITS]) && rev / 512 == Val(w[FAST_BITS - 1..])
  {
    Pow2Of16();
    ValTake(w, FAST_BITS);
    ValDrop(w, FAST_BITS - 1);
    NineBits(rev);
  }

  lemma NineBits(n: nat)
    ensures n / 512 == Div2(n, 9)
  {
    ThreeBits(n);
    ThreeBits(n / 8);
    ThreeBits(n / 64);
    DivAdds(n, 3, 6);
    DivAdds(n / 8, 3, 3);
  }

  lemma TenBits(n: nat)
    ensures n / FAST_SIZE == Div2(n, FAST_BITS)
  {
    NineBits(n);
    DivAdds(n, 9, 1);
    assert Div2(n / 512, 1) == n / 512 / 2;
  }

  /** What the decoder looks at first. */
  lemma FindStarts(look: seq<int>, tree: seq<int>, bits: nat, w: Bits)
    requires |look| == FAST_SIZE && w == Low(bits, MAX_BITS)
    ensures var temp := look[bits % FAST_SIZE];
            Find(look, tree, w) == if temp >= 0 then Symbol(temp % 512, temp / 512) else Down(tree, temp, w, FAST_BITS)
  {
    hide Low, Val;
    ValFast(w[..FAST_BITS]);
    LowMod(bits);
  }

  lemma LowMod(bits: nat)
    ensures Val(Low(bits, MAX_BITS)[..FAST_BITS]) == bits % FAST_SIZE
  {
    Pow2Of16();
    LowPrefix(bits, MAX_BITS, FAST_BITS);
    ValLowMod(bits, FAST_BITS);
  }

  lemma DownStep(tree: seq<int>, temp: int, w: Bits, l: nat, s: nat, len: nat)
    requires l <= |w| && temp < 0 && Down(tree, temp, w, l) == Symbol(s, len)
    ensures l < |w| && 0 <= -temp - 1 + Bit(w[l]) < |tree|
    ensures var t := tree[-temp - 1 + Bit(w[l])];
            if t < 0 then Down(tree, t, w, l + 1) == Symbol(s, len) else Symbol(t, l + 1) == Symbol(s, len)
  {
  }

  lemma NextBit(w: Bits, l: nat, r: nat)
    requires 1 <= l < |w| && r == Val(w[l - 1..])
    ensures r / 2 == Val(w[l..]) && (r / 2) % 2 == Bit(w[l])
  {
    assert w[l - 1..][1..] == w[l..];
    assert w[l..][0] == w[l];
  }

  /** A node minus the next bit is where that bit leads. */
  lemma BitSlot(nodes: Nodes, w: Bits, l: nat, cur: int)
    requires FAST_BITS <= l < |w| && w[..l] in nodes && cur == Pointer(nodes[w[..l]])
    ensures Placed(nodes, w[..l + 1]) && -(cur - Bit(w[l])) - 1 == SlotOf(nodes, w[..l + 1])
  {
    assert Parent(w[..l + 1]) == w[..l];
  }

  lemma EntryIs(look: seq<int>, tree: seq<int>, nodes: Nodes, lens: Lengths, n: nat, p: Bits)
    requires Trie(look, tree, nodes, lens, n) && Placed(nodes, p)
    ensures if |p| == FAST_BITS then Val(p) < |look| && Entry(look, tree, nodes, p) == look[Val(p)]
            else SlotOf(nodes, p) < |tree| && Entry(look, tree, nodes, p) == tree[SlotOf(nodes, p)]
  {
    if |p| == FAST_BITS {
      ValFast(p);
    } else {
      TrieNode(look, tree, nodes, lens, n, Parent(p));
    }
  }

  /** What inflate does with the code lengths of a block: tables for a code that
      is complete or has at most one word, and failure for any other. */
  method BuildTables(lens: Lengths, size: nat) returns (ok: bool, t: Tables?)
    requires size >= 2 * |lens| && size >= 10 && |lens| <= 512
    ensures ok <==> Buildable(lens)
    ensures ok <==> t != null
    ensures ok ==> t.Valid() && t.lens == lens && t.done == |lens| && fresh(t)
  {
    hide Trie, Buildable, Code, CodeWord, Count, First;
    var next;
    t := null;
    ok, next := FirstCodes(lens);
    if !ok { return; }
    t := new Tables(lens, size);
    var sym := 0;
    CountNone(lens);
    while sym < |lens|
      invariant 0 <= sym <= |lens| && t.Valid() && t.lens == lens && t.done == sym
      invariant fresh(t) && fresh(t.look) && fresh(t.tree)
      invariant |next| == MAX_BITS + 2
      invariant forall l :: 1 <= l <= MAX_BITS ==> next[l] == First(lens, l) + Count(lens, l, sym)
    {
      var length := lens[sym];
      CountNext(lens, sym);
      if length == 0 {
        t.Skip();
      } else {
        var code := next[length];
        next := next[length := code + 1];
        CodeIs(lens, sym);
        var rev := Reverse(code, length);
        if length <= FAST_BITS {
          t.AddShort(sym, rev, length);
        } else {
          t.AddLong(sym, rev, length);
        }
      }
      sym := sym + 1;
    }
  }

  lemma CountNone(lens: Lengths)
    ensures forall l :: Count(lens, l, 0) == 0
  {
  }

  lemma CountNext(lens: Lengths, n: nat)
    requires n < |lens|
    ensures forall l :: Count(lens, l, n + 1) == Count(lens, l, n) + if lens[n] == l then 1 else 0
  {
  }

  lemma CodeIs(lens: Lengths, s: nat)
    requires Used(lens, s)
    ensures CodeWord(lens, s) == Word(First(lens, lens[s]) + Count(lens, lens[s], s), lens[s])
  {
  }

  /** The encoder's half: the codes that the bit writer sends, lowest bit first. */
  method AssignCodes(lens: Lengths) returns (codes: seq<nat>)
    ensures |codes| == |lens|
    ensures forall s: nat :: Used(lens, s) ==> codes[s] == Val(CodeWord(lens, s))
  {
    hide Code, CodeWord, Count, First, Val;
    var totals := CountLengths(lens);
    var next := seq(MAX_BITS + 1, _ => 0);
    var j, i := 0, 2;
    FirstStep(lens);
    while i <= MAX_BITS
      invariant 2 <= i <= MAX_BITS + 1 && |next| == MAX_BITS + 1 && j == First(lens, i - 1)
      invariant forall l :: 1 <= l < i ==> next[l] == First(lens, l)
    {
      j := (j + totals[i - 1]) * 2;
      next := next[i := j];
      i := i + 1;
    }
    codes := seq(|lens|, _ => 0);
    var s := 0;
    CountNone(lens);
    while s < |lens|
      invariant 0 <= s <= |lens| == |codes| && |next| == MAX_BITS + 1
      invariant forall l :: 1 <= l <= MAX_BITS ==> next[l] == First(lens, l) + Count(lens, l, s)
      invariant forall t: nat :: t < s && Used(lens, t) ==> codes[t] == Val(CodeWord(lens, t))
    {
      var size := lens[s];
      CountNext(lens, s);
      if size != 0 {
        var code := next[size];
        next := next[size := code + 1];
        CodeIs(lens, s);
        var rev := Reverse(code, size);
        codes := codes[s := rev];
      }
      s := s + 1;
    }
  }

  lemma FirstStep(lens: Lengths)
    ensures First(lens, 1) == 0
    ensures forall l: nat :: l >= 1 ==> First(lens, l + 1) == 2 * (First(lens, l) + Total(lens, l))
  {
  }

  /** The bits of a text, one word behind the other. */
  function Encode(lens: Lengths, text: seq<nat>): Bits
    requires forall i :: 0 <= i < |text| ==> Used(lens, text[i])
  {
    if text == [] then [] else CodeWord(lens, text[0]) + Encode(lens, text[1..])
  }

  /** The words of a text can be taken off one by one, whatever follows: the
      table reads the first symbol from the bits, and what is left is the rest. */
  lemma EncodeReads(lens: Lengths, text: seq<nat>, after: Bits, bits: nat)
    requires forall i :: 0 <= i < |text| ==> Used(lens, text[i])
    requires text != [] && Encode(lens, text) + after == Low(bits, |Encode(lens, text) + after|)
    requires |Encode(lens, text) + after| >= MAX_BITS
    ensures Reads(lens, text[0], bits)
    ensures (Encode(lens, text) + after)[lens[text[0]]..] == Encode(lens, text[1..]) + after
    ensures Low(Div2(bits, lens[text[0]]), |Encode(lens, text[1..]) + after|) == Encode(lens, text[1..]) + after
  {
    hide Low, CodeWord, Div2;
    var all, w, rest := Encode(lens, text) + after, CodeWord(lens, text[0]), Encode(lens, text[1..]) + after;
    AllSplits(w, Encode(lens, text[1..]), after, all);
    LowPrefix(bits, |all|, MAX_BITS);
    LowRest(bits, all, |w|, rest);
  }

  lemma AllSplits(w: Bits, more: Bits, after: Bits, all: Bits)
    requires all == w + more + after && |w| <= MAX_BITS <= |all|
    ensures w <= all[..MAX_BITS] && all[|w|..] == more + after
  {
  }

  /** Reading with the tables what was written with the codes gives back the text. */
  method ReadText(t: Tables, start: nat, n: nat, ghost text: seq<nat>, ghost after: Bits)
    returns (read: seq<nat>, rest: nat)
    requires t.Valid() && t.done == |t.lens| && n == |text|
    requires forall i :: 0 <= i < |text| ==> Used(t.lens, text[i])
    requires |after| >= MAX_BITS && Encode(t.lens, text) + after == Low(start, |Encode(t.lens, text) + after|)
    ensures read == text && Low(rest, |after|) == after
  {
    hide Trie, Buildable, CodeWord, Low, Reads, Div2;
    read, rest := [], start;
    ghost var lens, left := t.lens, text;
    while |read| < n
      invariant |read| <= n && left == text[|read|..] && read == text[..|read|]
      invariant forall i :: 0 <= i < |left| ==> Used(lens, left[i])
      invariant Encode(lens, left) + after == Low(rest, |Encode(lens, left) + after|)
    {
      EncodeReads(lens, left, after, rest);
      var sym, size := t.Decode(rest);
      ReadsOnce(lens, sym, left[0], rest);
      read := read + [sym];
      rest := Div2(rest, size);
      left := left[1..];
    }
    assert [] + after == after;
  }

  lemma ReadsOnce(lens: Lengths, s: nat, t: nat, bits: nat)
    requires Buildable(lens) && Reads(lens, s, bits) && Reads(lens, t, bits)
    ensures s == t
  {
    BuildableFits(lens);
    SamePrefix(lens, s, t, Low(bits, MAX_BITS));
  }

  /** With a complete code every buffer can be decoded, and what the tables find
      is what decoding bit by bit finds. */
  lemma CompleteReads(lens: Lengths, bits: nat) returns (s: nat)
    requires Complete(lens)
    ensures Reads(lens, s, bits) && lens[s] == PlainLength(lens, Low(bits, MAX_BITS), 1)
    ensures forall t: nat :: Reads(lens, t, bits) ==> t == s
  {
    s := PlainDecodes(lens, Low(bits, MAX_BITS), 1);
    forall t: nat | Reads(lens, t, bits)
      ensures t == s
    {
      ReadsOnce(lens, s, t, bits);
    }
  }
}
