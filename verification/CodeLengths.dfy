/** Run-length coding of code lengths: section 3.2.7 of RFC 1951. */
module CodeLengths {
  const REPEAT: nat := 16      // the length before, 3 to 6 times: two bits
  const ZEROS_SHORT: nat := 17 // 3 to 10 zeros: three bits
  const ZEROS_LONG: nat := 18  // 11 to 138 zeros: seven bits

  predicate Small(s: seq<nat>) { forall i :: 0 <= i < |s| ==> s[i] < REPEAT }

  datatype Option<T> = None | Some(value: T)

  /** The extra bits of a symbol, and what a count there means. */
  function FieldLimit(sym: nat): nat {
    if sym == REPEAT then 4 else if sym == ZEROS_SHORT then 8 else 128
  }

  function Base(sym: nat): nat { if sym == ZEROS_LONG then 11 else 3 }

  function Run(x: nat, n: nat): (s: seq<nat>)
    ensures |s| == n && forall i :: 0 <= i < n ==> s[i] == x
  {
    if n == 0 then [] else Run(x, n - 1) + [x]
  }

  /** What the symbols, each above 15 with its count behind it, stand for when
      `out` has been read already. */
  function Meaning(packed: seq<nat>, out: seq<nat>): Option<seq<nat>>
    decreases |packed|
  {
    if packed == [] then Some(out)
    else if packed[0] < REPEAT then Meaning(packed[1..], out + [packed[0]])
    else if packed[0] > ZEROS_LONG || |packed| < 2 || packed[1] >= FieldLimit(packed[0]) then None
    else if packed[0] == REPEAT && out == [] then None
    else
      var x := if packed[0] == REPEAT then out[|out| - 1] else 0;
      Meaning(packed[2..], out + Run(x, Base(packed[0]) + packed[1]))
  }

  lemma {:induction false} MeaningAppend(p: seq<nat>, q: seq<nat>, out: seq<nat>)
    requires Meaning(p, out).Some?
    ensures Meaning(p + q, out) == Meaning(q, Meaning(p, out).value)
    decreases |p|
  {
    if p == [] {
      assert p + q == q;
    } else if p[0] < REPEAT {
      assert (p + q)[1..] == p[1..] + q;
      MeaningAppend(p[1..], q, out + [p[0]]);
    } else {
      assert (p + q)[2..] == p[2..] + q;
      var x := if p[0] == REPEAT then out[|out| - 1] else 0;
      MeaningAppend(p[2..], q, out + Run(x, Base(p[0]) + p[1]));
    }
  }

  /** The symbols written so far stand for all sizes but the run that is open:
      `zeros` zeros, or `again` times the size before. */
  ghost predicate Packed(packed: seq<nat>, sizes: seq<nat>, zeros: nat, again: nat, prev: nat) {
    && zeros + again <= |sizes| && (zeros == 0 || again == 0)
    && Meaning(packed, []) == Some(sizes[..|sizes| - zeros - again])
    && (zeros > 0 ==> prev == 0 && zeros < 138)
    && (again > 0 ==> prev != 0 && again < |sizes| && again < 6)
    && (sizes == [] ==> prev == 255) && (sizes != [] ==> prev == sizes[|sizes| - 1])
    && (forall i :: |sizes| - zeros <= i < |sizes| ==> sizes[i] == 0)
    && (again > 0 ==> forall i :: |sizes| - again - 1 <= i < |sizes| ==> sizes[i] == prev)
  }

  /** The symbols for a run of the size before. */
  function RepeatCode(prev: nat, again: nat): seq<nat> {
    if again < 3 then Run(prev, again) else [REPEAT, again - 3]
  }

  function ZeroCode(zeros: nat): seq<nat> {
    if zeros < 3 then Run(0, zeros) else if zeros <= 10 then [ZEROS_SHORT, zeros - 3] else [ZEROS_LONG, zeros - 11]
  }

  lemma {:induction false} RunMeaning(x: nat, n: nat, out: seq<nat>)
    requires x < REPEAT
    ensures Meaning(Run(x, n), out) == Some(out + Run(x, n))
  {
    if n == 0 {
      assert out + [] == out;
    } else {
      RunMeaning(x, n - 1, out);
      MeaningAppend(Run(x, n - 1), [x], out);
      assert [x][1..] == [];
      assert out + Run(x, n - 1) + [x] == out + Run(x, n);
    }
  }

  lemma RepeatMeaning(prev: nat, again: nat, out: seq<nat>)
    requires prev < REPEAT && again <= 6 && out != [] && out[|out| - 1] == prev
    ensures Meaning(RepeatCode(prev, again), out) == Some(out + Run(prev, again))
  {
    if again < 3 {
      RunMeaning(prev, again, out);
    } else {
      assert [REPEAT, again - 3][2..] == [];
    }
  }

  lemma ZeroMeaning(zeros: nat, out: seq<nat>)
    requires zeros <= 138
    ensures Meaning(ZeroCode(zeros), out) == Some(out + Run(0, zeros))
  {
    if zeros < 3 {
      RunMeaning(0, zeros, out);
    } else if zeros <= 10 {
      assert [ZEROS_SHORT, zeros - 3][2..] == [];
    } else {
      assert [ZEROS_LONG, zeros - 11][2..] == [];
    }
  }

  lemma RunIs(s: seq<nat>, x: nat)
    requires forall i :: 0 <= i < |s| ==> s[i] == x
    ensures s == Run(x, |s|)
  {
  }

  /** An open run of repeats is written. */
  lemma CloseRepeat(packed: seq<nat>, sizes: seq<nat>, again: nat, prev: nat)
    requires prev < REPEAT && (again == 0 || (again <= 6 && again < |sizes|))
    requires Meaning(packed, []) == Some(sizes[..|sizes| - again])
    requires again > 0 ==> forall i :: |sizes| - again - 1 <= i < |sizes| ==> sizes[i] == prev
    ensures Meaning(packed + RepeatCode(prev, again), []) == Some(sizes)
  {
    var done := sizes[..|sizes| - again];
    MeaningAppend(packed, RepeatCode(prev, again), []);
    if again == 0 {
      assert done == sizes;
    } else {
      RepeatMeaning(prev, again, done);
      RunIs(sizes[|sizes| - again..], prev);
      assert sizes == done + sizes[|sizes| - again..];
    }
  }

  /** An open run of zeros is written. */
  lemma CloseZeros(packed: seq<nat>, sizes: seq<nat>, zeros: nat)
    requires zeros <= 138 && zeros <= |sizes|
    requires Meaning(packed, []) == Some(sizes[..|sizes| - zeros])
    requires forall i :: |sizes| - zeros <= i < |sizes| ==> sizes[i] == 0
    ensures Meaning(packed + ZeroCode(zeros), []) == Some(sizes)
  {
    var done := sizes[..|sizes| - zeros];
    MeaningAppend(packed, ZeroCode(zeros), []);
    ZeroMeaning(zeros, done);
    RunIs(sizes[|sizes| - zeros..], 0);
    assert sizes == done + sizes[|sizes| - zeros..];
  }

  /** How often a symbol is sent. */
  function Uses(packed: seq<nat>, sym: nat): nat
    decreases |packed|
  {
    if packed == [] then 0
    else (if packed[0] == sym then 1 else 0)
         + Uses(packed[(if packed[0] < REPEAT || |packed| < 2 then 1 else 2)..], sym)
  }

  lemma {:induction false} UsesAppend(p: seq<nat>, q: seq<nat>, out: seq<nat>, sym: nat)
    requires Meaning(p, out).Some?
    ensures Uses(p + q, sym) == Uses(p, sym) + Uses(q, sym)
    decreases |p|
  {
    if p == [] {
      assert p + q == q;
    } else if p[0] < REPEAT {
      assert (p + q)[1..] == p[1..] + q;
      UsesAppend(p[1..], q, out + [p[0]], sym);
    } else {
      assert (p + q)[2..] == p[2..] + q;
      var x := if p[0] == REPEAT then out[|out| - 1] else 0;
      UsesAppend(p[2..], q, out + Run(x, Base(p[0]) + p[1]), sym);
    }
  }

  lemma {:induction false} RunUses(x: nat, n: nat, sym: nat)
    requires x < REPEAT
    ensures Uses(Run(x, n), sym) == if x == sym then n else 0
  {
    if n > 0 {
      RunUses(x, n - 1, sym);
      RunMeaning(x, n - 1, []);
      UsesAppend(Run(x, n - 1), [x], [], sym);
      assert [x][1..] == [];
    }
  }

  lemma CodeUses(x: nat, n: nat, sym: nat)
    requires x < REPEAT && n <= 138
    ensures Uses(RepeatCode(x, n), sym) == if sym == (if n < 3 then x else REPEAT) then (if n < 3 then n else 1) else 0
    ensures Uses(ZeroCode(n), sym)
         == if sym == (if n < 3 then 0 else if n <= 10 then ZEROS_SHORT else ZEROS_LONG) then (if n < 3 then n else 1) else 0
  {
    if n < 3 {
      RunUses(x, n, sym);
      RunUses(0, n, sym);
    } else {
      assert [REPEAT, n - 3][2..] == [];
      if n <= 10 { assert [ZEROS_SHORT, n - 3][2..] == []; } else { assert [ZEROS_LONG, n - 11][2..] == []; }
    }
  }

  /** The packed sizes and how often each symbol is used in them. */
  class Packer {
    var packed: seq<nat>
    var count: seq<nat>  // m_huff_count[2]

    ghost predicate Valid()
      reads this
    {
      Meaning(packed, []).Some? && |count| == 19 && forall sym :: 0 <= sym < 19 ==> count[sym] == Uses(packed, sym)
    }

    constructor ()
      ensures Valid() && packed == []
    {
      packed, count := [], seq(19, _ => 0);
    }

    method Put(code: seq<nat>, sym: nat, n: nat, ghost whole: seq<nat>)
      requires Valid() && sym < 19 && Meaning(packed + code, []) == Some(whole)
      requires forall s :: 0 <= s < 19 ==> Uses(code, s) == if s == sym then n else 0
      modifies this
      ensures Valid() && packed == old(packed) + code && Meaning(packed, []) == Some(whole)
    {
      forall s: nat | s < 19
        ensures Uses(packed + code, s) == Uses(packed, s) + Uses(code, s)
      {
        UsesAppend(packed, code, [], s);
      }
      packed := packed + code;
      count := count[sym := count[sym] + n];
    }

    /** TDEFL_RLE_PREV_CODE_SIZE */
    method FlushRepeat(prev: nat, again: nat, ghost sizes: seq<nat>)
      requires Valid() && prev < REPEAT && (again == 0 || (again <= 6 && again < |sizes|))
      requires Meaning(packed, []) == Some(sizes[..|sizes| - again])
      requires again > 0 ==> forall i :: |sizes| - again - 1 <= i < |sizes| ==> sizes[i] == prev
      modifies this
      ensures Valid() && Meaning(packed, []) == Some(sizes)
    {
      hide Meaning, Uses;
      CloseRepeat(packed, sizes, again, prev);
      forall sym: nat | sym < 19 ensures Uses(RepeatCode(prev, again), sym)
          == if sym == (if again < 3 then prev else REPEAT) then (if again < 3 then again else 1) else 0
      { CodeUses(prev, again, sym); }
      Put(RepeatCode(prev, again), if again < 3 then prev else REPEAT, if again < 3 then again else 1, sizes);
    }

    /** TDEFL_RLE_ZERO_CODE_SIZE */
    method FlushZeros(zeros: nat, ghost sizes: seq<nat>)
      requires Valid() && zeros <= 138 && zeros <= |sizes|
      requires Meaning(packed, []) == Some(sizes[..|sizes| - zeros])
      requires forall i :: |sizes| - zeros <= i < |sizes| ==> sizes[i] == 0
      modifies this
      ensures Valid() && Meaning(packed, []) == Some(sizes)
    {
      hide Meaning, Uses;
      CloseZeros(packed, sizes, zeros);
      var sym := if zeros < 3 then 0 else if zeros <= 10 then ZEROS_SHORT else ZEROS_LONG;
      forall s: nat | s < 19 ensures Uses(ZeroCode(zeros), s) == if s == sym then (if zeros < 3 then zeros else 1) else 0
      { CodeUses(0, zeros, s); }
      Put(ZeroCode(zeros), sym, if zeros < 3 then zeros else 1, sizes);
    }

    /** The packing loop of tdefl_start_dynamic_block. */
    method Pack(sizes: seq<nat>)
      requires Valid() && packed == [] && Small(sizes)
      modifies this
      ensures Valid() && Meaning(packed, []) == Some(sizes)
    {
      hide Meaning, Uses;
      var zeros, again, prev, i := 0, 0, 255, 0;
      NothingPacked(sizes);
      while i < |sizes|
        invariant 0 <= i <= |sizes| && Valid() && Packed(packed, sizes[..i], zeros, again, prev)
      {
        var size := sizes[i];
        ghost var before, upto := sizes[..i], sizes[..i + 1];
        assert upto == before + [size] && before[..|before|] == before && upto[..|upto|] == upto;
        ghost var open := zeros + again;
        assert upto[..|upto| - 1 - open] == before[..|before| - open];
        if size == 0 {
          if again > 0 { FlushRepeat(prev, again, before); }
          again := 0;
          zeros := zeros + 1;
          assert upto[..|upto| - 1] == before;
          if zeros == 138 {
            FlushZeros(zeros, upto);
            zeros := 0;
          }
        } else {
          if zeros > 0 { FlushZeros(zeros, before); }
          zeros := 0;
          if size != prev {
            if again > 0 { FlushRepeat(prev, again, before); }
            again := 0;
            PutSize(size, before, upto);
          } else {
            again := again + 1;
            if again == 6 {
              FlushRepeat(prev, again, upto);
              again := 0;
            }
          }
        }
        prev := size;
        i := i + 1;
      }
      assert sizes[..i] == sizes;
      if again > 0 { FlushRepeat(prev, again, sizes); } else { FlushZeros(zeros, sizes); }
    }

    method PutSize(size: nat, ghost before: seq<nat>, ghost upto: seq<nat>)
      requires Valid() && 0 < size < REPEAT && upto == before + [size] && Meaning(packed, []) == Some(before)
      modifies this
      ensures Valid() && Meaning(packed, []) == Some(upto)
    {
      MeaningAppend(packed, [size], []);
      assert [size][1..] == [];
      Put([size], size, 1, upto);
    }
  }

  lemma NothingPacked(sizes: seq<nat>)
    ensures Packed([], sizes[..0], 0, 0, 255)
  {
  }

  /** Every symbol stands for something. */
  lemma {:induction false} MeaningGrows(packed: seq<nat>, out: seq<nat>)
    requires Meaning(packed, out).Some?
    ensures out <= Meaning(packed, out).value
    ensures packed != [] ==> |Meaning(packed, out).value| > |out|
    decreases |packed|
  {
    if packed != [] {
      if packed[0] < REPEAT {
        MeaningGrows(packed[1..], out + [packed[0]]);
      } else {
        var x := if packed[0] == REPEAT then out[|out| - 1] else 0;
        MeaningGrows(packed[2..], out + Run(x, Base(packed[0]) + packed[1]));
      }
    }
  }

  const MAX_CODES: nat := 320   // TINFL_MAX_HUFF_SYMBOLS_0 + TINFL_MAX_HUFF_SYMBOLS_1
  const CODES_ROOM: nat := 457  // and 137 more for a run that goes too far

  /** The reading loop of tinfl_decompress. It fails when the sizes do not come
      out at `total`, or start with a repeat. */
  method Unpack(packed: seq<nat>, total: nat, codes: array<nat>) returns (ok: bool)
    requires total <= MAX_CODES && codes.Length == CODES_ROOM
    modifies codes
    ensures ok ==> exists p :: 0 <= p <= |packed| && Meaning(packed[..p], []) == Some(codes[..total])
    ensures var m := Meaning(packed, []);
            m.Some? && |m.value| == total ==> ok && codes[..total] == m.value
  {
    hide Meaning;
    var counter, p: nat := 0, 0;
    StartReading(packed);
    while counter < total
      invariant 0 <= p <= |packed| && counter <= CODES_ROOM
      invariant Meaning(packed[..p], []) == Some(codes[..counter])
      invariant Meaning(packed, []) == Meaning(packed[p..], codes[..counter])
    {
      MoreToRead(packed, p, codes[..counter], total);
      if p == |packed| { return false; }
      ReadNext(packed, p, codes[..counter]);
      var sym := packed[p];
      if sym < REPEAT {
        codes[counter] := sym;
        assert codes[..counter + 1] == codes[..counter] + [sym];
        counter := counter + 1;
        p := p + 1;
      } else {
        if sym == REPEAT && counter == 0 { return false; }
        if sym > ZEROS_LONG || p + 1 == |packed| || packed[p + 1] >= FieldLimit(sym) { return false; }
        var x := if sym == REPEAT then codes[counter - 1] else 0;
        SetRun(codes, counter, x, Base(sym) + packed[p + 1]);
        counter := counter + Base(sym) + packed[p + 1];
        p := p + 2;
      }
    }
    AllRead(packed, p, codes[..counter], total);
    ok := counter == total;
  }

  /** TINFL_MEMSET */
  method SetRun(codes: array<nat>, at: nat, x: nat, n: nat)
    requires at + n <= codes.Length
    modifies codes
    ensures codes[..at + n] == old(codes[..at]) + Run(x, n)
  {
    var i := 0;
    while i < n
      invariant 0 <= i <= n && codes[..at + i] == old(codes[..at]) + Run(x, i)
    {
      codes[at + i] := x;
      assert codes[..at + i + 1] == codes[..at + i] + [x];
      i := i + 1;
    }
  }

  lemma StartReading(packed: seq<nat>)
    ensures Meaning(packed[..0], []) == Some([]) && packed[0..] == packed
  {
  }

  lemma MoreToRead(packed: seq<nat>, p: nat, out: seq<nat>, total: nat)
    requires p <= |packed| && |out| < total
    ensures var m := Meaning(packed[p..], out); p == |packed| ==> m == Some(out)
  {
  }

  /** One symbol's part in the meaning. */
  lemma ReadNext(packed: seq<nat>, p: nat, out: seq<nat>)
    requires p < |packed| && Meaning(packed[..p], []) == Some(out)
    ensures var sym := packed[p];
            if sym < REPEAT then
              Meaning(packed[p..], out) == Meaning(packed[p + 1..], out + [sym])
              && Meaning(packed[..p + 1], []) == Some(out + [sym])
            else if sym > ZEROS_LONG || p + 1 == |packed| || packed[p + 1] >= FieldLimit(sym) || (sym == REPEAT && out == []) then
              Meaning(packed[p..], out) == None
            else
              var run := Run(if sym == REPEAT then out[|out| - 1] else 0, Base(sym) + packed[p + 1]);
              Meaning(packed[p..], out) == Meaning(packed[p + 2..], out + run)
              && Meaning(packed[..p + 2], []) == Some(out + run)
  {
    var sym := packed[p];
    if sym < REPEAT {
      ReadSize(packed, p, out);
    } else if p + 1 < |packed| {
      ReadRun(packed, p, out);
    }
  }

  lemma ReadSize(packed: seq<nat>, p: nat, out: seq<nat>)
    requires p < |packed| && Meaning(packed[..p], []) == Some(out) && packed[p] < REPEAT
    ensures Meaning(packed[p..], out) == Meaning(packed[p + 1..], out + [packed[p]])
    ensures Meaning(packed[..p + 1], []) == Some(out + [packed[p]])
  {
    var sym := packed[p];
    assert packed[p..][1..] == packed[p + 1..] && packed[..p + 1] == packed[..p] + [sym];
    MeaningAppend(packed[..p], [sym], []);
    assert [sym][1..] == [];
  }

  lemma ReadRun(packed: seq<nat>, p: nat, out: seq<nat>)
    requires p + 1 < |packed| && Meaning(packed[..p], []) == Some(out) && packed[p] >= REPEAT
    ensures var sym := packed[p];
            if sym > ZEROS_LONG || packed[p + 1] >= FieldLimit(sym) || (sym == REPEAT && out == []) then
              Meaning(packed[p..], out) == None
            else
              var run := Run(if sym == REPEAT then out[|out| - 1] else 0, Base(sym) + packed[p + 1]);
              Meaning(packed[p..], out) == Meaning(packed[p + 2..], out + run)
              && Meaning(packed[..p + 2], []) == Some(out + run)
  {
    var two := [packed[p], packed[p + 1]];
    assert packed[p..][2..] == packed[p + 2..] && packed[..p + 2] == packed[..p] + two;
    MeaningAppend(packed[..p], two, []);
    assert two[2..] == [];
  }

  lemma AllRead(packed: seq<nat>, p: nat, out: seq<nat>, total: nat)
    requires p <= |packed| && |out| >= total && Meaning(packed, []) == Meaning(packed[p..], out)
    ensures var m := Meaning(packed, []); m.Some? && |m.value| == total ==> |out| == total && out == m.value
  {
    if Meaning(packed[p..], out).Some? { MeaningGrows(packed[p..], out); }
  }

  /** The order in which the lengths of the length code are sent. */
  const SWIZZLE: seq<nat> := [16, 17, 18, 0, 8, 7, 9, 6, 10, 5, 11, 4, 12, 3, 13, 2, 14, 1, 15]

  lemma SwizzlePlace(i: nat)
    requires i < 19
    ensures SWIZZLE[i] == if i < 3 then 16 + i else if i == 3 then 0 else if i % 2 == 0 then 8 + (i - 4) / 2 else 8 - (i - 3) / 2
  {
  }

  /** The lengths that are sent: up to the last that is not zero, four at least. */
  method Sent(sizes: seq<nat>) returns (sent: seq<nat>)
    requires |sizes| == 19
    ensures 4 <= |sent| <= 19 && forall i :: 0 <= i < |sent| ==> sent[i] == sizes[SWIZZLE[i]]
    ensures forall i :: |sent| <= i < 19 ==> sizes[SWIZZLE[i]] == 0
    ensures sent[0] == sizes[16] && sent[1] == sizes[17] && sent[2] == sizes[18] && sent[3] == sizes[0]
    ensures forall i :: 4 <= i < |sent| ==> sent[i] == if i % 2 == 0 then sizes[8 + (i - 4) / 2] else sizes[8 - (i - 3) / 2]
  {
    var n := 18;
    while n >= 0 && sizes[SWIZZLE[n]] == 0
      invariant -1 <= n <= 18 && forall i :: n < i < 19 ==> sizes[SWIZZLE[i]] == 0
    {
      n := n - 1;
    }
    n := if n + 1 < 4 then 4 else n + 1;
    sent := seq(n, i requires 0 <= i < n => sizes[SWIZZLE[i]]);
    forall i | 4 <= i < n
      ensures sent[i] == if i % 2 == 0 then sizes[8 + (i - 4) / 2] else sizes[8 - (i - 3) / 2]
    {
      SwizzlePlace(i);
    }
  }

  /** Reading them back gives all nineteen. */
  method Received(sent: seq<nat>, ghost sizes: seq<nat>) returns (got: seq<nat>)
    requires 4 <= |sent| <= 19 == |sizes| && forall i :: 0 <= i < |sent| ==> sent[i] == sizes[SWIZZLE[i]]
    requires forall i :: |sent| <= i < 19 ==> sizes[SWIZZLE[i]] == 0
    ensures got == sizes
  {
    got := seq(19, _ => 0);
    var i := 0;
    while i < |sent|
      invariant 0 <= i <= |sent| && |got| == 19
      invariant forall k :: 0 <= k < 19 ==> got[SWIZZLE[k]] == if k < i then sizes[SWIZZLE[k]] else 0
    {
      forall k | 0 <= k < 19 && k != i
        ensures SWIZZLE[k] != SWIZZLE[i]
      {
        SwizzleOnce(k, i);
      }
      got := got[SWIZZLE[i] := sent[i]];
      i := i + 1;
    }
    forall j | 0 <= j < 19
      ensures got[j] == sizes[j]
    {
      var k := SwizzleAll(j);
      assert got[SWIZZLE[k]] == sizes[SWIZZLE[k]];
    }
  }

  lemma SwizzleOnce(i: nat, k: nat)
    requires i < 19 && k < 19 && i != k
    ensures SWIZZLE[i] != SWIZZLE[k]
  {
  }

  lemma SwizzleAll(j: nat) returns (k: nat)
    requires j < 19
    ensures k < 19 && SWIZZLE[k] == j
  {
    k := [3, 17, 15, 13, 11, 9, 7, 5, 4, 6, 8, 10, 12, 14, 16, 18, 0, 1, 2][j];
  }
}
