/** Limiting the lengths of a code, by the number of codes of each length. */
module HuffmanLimit {
  import opened HuffmanCode

  const MAX_SUPPORTED: nat := 32  // TDEFL_MAX_SUPPORTED_HUFF_CODESIZE

  /** Codes of 1 to `m` bits. */
  function Codes(c: seq<nat>, m: nat): nat
    requires m < |c|
  {
    if m == 0 then 0 else Codes(c, m - 1) + c[m]
  }

  /** Their Kraft sum in units of 2^-t. */
  function Units(c: seq<nat>, m: nat, t: nat): nat
    requires m < |c| && m <= t
  {
    if m == 0 then 0 else Units(c, m - 1, t) + Shl(c[m], t - m)
  }

  lemma {:induction false} CodesUpdate(c: seq<nat>, m: nat, i: nat, v: nat)
    requires m < |c| && 1 <= i < |c|
    ensures Codes(c[i := v], m) == Codes(c, m) + if i <= m then v - c[i] else 0
  {
    if m > 0 { CodesUpdate(c, m - 1, i, v); }
  }

  lemma {:induction false} UnitsUpdate(c: seq<nat>, m: nat, t: nat, i: nat, v: nat)
    requires m < |c| && m <= t && 1 <= i < |c|
    ensures Units(c[i := v], m, t) == Units(c, m, t) + if i <= m then Shl(v, t - i) - Shl(c[i], t - i) else 0
  {
    if m > 0 { UnitsUpdate(c, m - 1, t, i, v); }
  }

  lemma {:induction false} UnitsFiner(c: seq<nat>, m: nat, t: nat)
    requires m < |c| && m <= t
    ensures Units(c, m, t + 1) == 2 * Units(c, m, t)
  {
    if m > 0 {
      UnitsFiner(c, m - 1, t);
    }
  }

  /** Codes of more than `max` and at most `m` bits. */
  function Long(c: seq<nat>, max: nat, m: nat): nat
    requires m < |c|
  {
    if m <= max then 0 else Long(c, max, m - 1) + c[m]
  }

  lemma {:induction false} CodesLong(c: seq<nat>, max: nat, m: nat)
    requires max <= m < |c|
    ensures Codes(c, m) == Codes(c, max) + Long(c, max, m)
  {
    if m > max { CodesLong(c, max, m - 1); }
  }

  /** Counting longer lengths at the limit can only raise the sum, by no more
      than their number. */
  lemma {:induction false} Folded(c: seq<nat>, max: nat, m: nat)
    requires 1 <= max <= m < |c|
    ensures Shl(Units(c, max, max), m - max) <= Units(c, m, m)
    ensures Units(c, m, m) <= Shl(Units(c, max, max) + Long(c, max, m), m - max)
    decreases m
  {
    if m > max {
      Folded(c, max, m - 1);
      UnitsFiner(c, m - 1, m - 1);
      ShlAdds(Units(c, max, max) + Long(c, max, m - 1), c[m], m - max);
      ShlAtLeast(c[m], m - max);
    }
  }

  lemma {:induction false} ShlAtLeast(a: nat, k: nat)
    ensures Shl(a, k) >= a && (k > 0 && a > 0 ==> Shl(a, k) > a)
  {
    if k > 0 { ShlAtLeast(a, k - 1); }
  }

  lemma {:induction false} ShlPow2(k: nat, j: nat)
    ensures Shl(Pow2(j), k) == Pow2(j + k)
  {
    if k > 0 { ShlPow2(k - 1, j); }
  }

  lemma {:induction false} ShlOrder(a: nat, b: nat, k: nat)
    requires a <= b
    ensures Shl(a, k) <= Shl(b, k)
  {
    if k > 0 { ShlOrder(a, b, k - 1); }
  }

  /** With every code at the limit there are as many units as codes. */
  lemma {:induction false} AllLong(c: seq<nat>, m: nat, max: nat)
    requires m < |c| && m <= max && forall i :: 1 <= i <= m && i < max ==> c[i] == 0
    ensures m < max ==> Units(c, m, max) == 0 && Codes(c, m) == 0
    ensures m == max ==> Units(c, m, max) == Codes(c, m)
  {
    if m > 0 {
      AllLong(c, m - 1, max);
      ShlAdds(0, 0, max - m);
    }
  }

  /** A full code of 2 to 2^max symbols becomes a full code of as many symbols
      with no length above the limit. */
  method EnforceMaxCodeSize(c: array<nat>, listLen: nat, max: nat)
    requires c.Length == MAX_SUPPORTED + 1 && 1 <= max <= MAX_SUPPORTED
    requires listLen > 1 ==> Codes(c[..], MAX_SUPPORTED) == listLen <= Pow2(max)
    requires listLen > 1 ==> Units(c[..], MAX_SUPPORTED, MAX_SUPPORTED) == Pow2(MAX_SUPPORTED)
    modifies c
    ensures listLen <= 1 ==> c[..] == old(c[..])
    ensures listLen > 1 ==> Codes(c[..], max) == listLen && Units(c[..], max, max) == Pow2(max)
    ensures listLen > 1 && Codes(old(c[..]), max) == listLen ==> c[..] == old(c[..])
  {
    hide Codes, Units, Pow2;
    if listLen <= 1 {
      return;
    }
    ghost var was := c[..];
    var i := max + 1;
    while i <= MAX_SUPPORTED
      invariant max + 1 <= i <= MAX_SUPPORTED + 1
      invariant c[..] == was[max := was[max] + Long(was, max, i - 1)]
    {
      c[max] := c[max] + c[i];
      i := i + 1;
    }
    FoldedExcess(was, max, listLen);
    CodesLong(was, max, MAX_SUPPORTED);
    Repair(c, listLen, max);
  }

  /** The sum of the lengths up to the limit, brought down to a full code. */
  method Repair(c: array<nat>, ghost listLen: nat, max: nat)
    requires 1 <= max <= MAX_SUPPORTED < c.Length && Repairing(c[..], Units(c[..], max, max), listLen, max)
    modifies c
    ensures Codes(c[..], max) == listLen && Units(c[..], max, max) == Pow2(max)
    ensures Units(old(c[..]), max, max) == Pow2(max) ==> c[..] == old(c[..])
  {
    hide Codes, Units, Pow2, Shl;
    var total: nat := Sum(c, max);
    ShlPow2(max, 0);
    PowZero();
    while total != Shl(1, max)
      invariant Repairing(c[..], total, listLen, max)
      invariant Units(old(c[..]), max, max) == Pow2(max) ==> total == Pow2(max) && c[..] == old(c[..])
      decreases total
    {
      SplitOne(c, total, listLen, max);
      total := total - 1;
    }
  }

  method Sum(c: array<nat>, max: nat) returns (total: nat)
    requires max < c.Length
    ensures total == Units(c[..], max, max)
  {
    total := 0;
    var i: nat := max;
    while i > 0
      invariant 0 <= i <= max
      invariant total + Units(c[..], i, max) == Units(c[..], max, max)
    {
      total := total + Shl(c[i], max - i);
      i := i - 1;
    }
  }

  /** One code of the limit's length and one shorter make room for each other. */
  method SplitOne(c: array<nat>, ghost total: nat, ghost listLen: nat, max: nat)
    requires 1 <= max < c.Length && Repairing(c[..], total, listLen, max) && total != Pow2(max)
    modifies c
    ensures total > 0 && Repairing(c[..], total - 1, listLen, max)
  {
    hide Codes, Units, Pow2, Shl;
    Splittable(c[..], total, listLen, max);
    ghost var before := c[..];
    c[max] := c[max] - 1;
    var i: nat := max - 1;
    while c[i] == 0
      decreases i
      invariant 1 <= i < max && c[..] == before[max := before[max] - 1]
      invariant forall j :: i < j < max ==> before[j] == 0
    {
      i := i - 1;
    }
    c[i] := c[i] - 1;
    c[i + 1] := c[i + 1] + 2;
    Split(before, c[..], total, listLen, max, i);
  }

  lemma ShlNone(a: nat, b: nat)
    ensures Shl(a, 0) == a && Shl(b, 0) == b
  {
  }

  lemma PowZero()
    ensures Pow2(0) == 1
  {
  }

  /** The sum is over by no more than the number of longest codes. */
  ghost predicate Repairing(c: seq<nat>, total: nat, listLen: nat, max: nat) {
    && |c| == MAX_SUPPORTED + 1 && 1 <= max <= MAX_SUPPORTED && listLen <= Pow2(max)
    && Codes(c, max) == listLen && Units(c, max, max) == total
    && Pow2(max) <= total <= Pow2(max) + c[max]
  }

  lemma FoldedExcess(was: seq<nat>, max: nat, listLen: nat)
    requires |was| == MAX_SUPPORTED + 1 && 1 <= max <= MAX_SUPPORTED
    requires Codes(was, MAX_SUPPORTED) == listLen <= Pow2(max)
    requires Units(was, MAX_SUPPORTED, MAX_SUPPORTED) == Pow2(MAX_SUPPORTED)
    ensures var c := was[max := was[max] + Long(was, max, MAX_SUPPORTED)];
            && Repairing(c, Units(c, max, max), listLen, max)
            && (Long(was, max, MAX_SUPPORTED) == 0 ==> Units(c, max, max) == Pow2(max))
  {
    hide Pow2, Shl, Codes, Units, Long;
    var long, u, k := Long(was, max, MAX_SUPPORTED), Units(was, max, max), MAX_SUPPORTED - max;
    ShlNone(was[max], was[max] + long);
    CodesLong(was, max, MAX_SUPPORTED);
    CodesUpdate(was, max, max, was[max] + long);
    UnitsUpdate(was, max, max, max, was[max] + long);
    Folded(was, max, MAX_SUPPORTED);
    ShlPow2(k, max);
    if u + long < Pow2(max) { ShlStrict(u + long, Pow2(max), k); }
    if u > Pow2(max) { ShlStrict(Pow2(max), u, k); }
  }

  lemma {:induction false} ShlStrict(a: nat, b: nat, k: nat)
    requires a < b
    ensures Shl(a, k) < Shl(b, k)
  {
    if k > 0 { ShlStrict(a, b, k - 1); }
  }

  /** While the sum is over, there is a longest code to take away and a shorter
      one to split. */
  lemma Splittable(c: seq<nat>, total: nat, listLen: nat, max: nat)
    requires Repairing(c, total, listLen, max) && total != Pow2(max)
    ensures total > 0 && c[max] > 0 && exists i :: 1 <= i < max && c[i] > 0
  {
    if forall i :: 1 <= i < max ==> c[i] == 0 {
      AllLong(c, max, max);
    }
  }

  /** A longest code goes, a shorter one makes two of the next length. */
  lemma Split(before: seq<nat>, after: seq<nat>, total: nat, listLen: nat, max: nat, i: nat)
    requires Repairing(before, total, listLen, max) && total != Pow2(max) && before[max] > 0
    requires 1 <= i < max && before[i] > 0
    requires var a := before[max := before[max] - 1]; var b := a[i := a[i] - 1]; after == b[i + 1 := b[i + 1] + 2]
    ensures Repairing(after, total - 1, listLen, max)
  {
    hide Pow2, Shl, Codes, Units;
    var a := before[max := before[max] - 1];
    var b := a[i := a[i] - 1];
    ShlNone(before[max], before[max] - 1);
    CodesUpdate(before, max, max, before[max] - 1);
    CodesUpdate(a, max, i, a[i] - 1);
    CodesUpdate(b, max, i + 1, b[i + 1] + 2);
    UnitsUpdate(before, max, max, max, before[max] - 1);
    UnitsUpdate(a, max, max, i, a[i] - 1);
    UnitsUpdate(b, max, max, i + 1, b[i + 1] + 2);
    ShlAdds(a[i] - 1, 1, max - i);
    ShlAdds(b[i + 1], 2, max - i - 1);
    ShlAdds(1, 0, max - i - 1);
  }
}
