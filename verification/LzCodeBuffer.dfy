/** The buffer of literal and match codes between parser and Huffman coder:
    groups of up to eight codes, each group behind a byte of flags that is
    filled from the top as the codes come in. */
module LzCodeBuffer {
  import opened LzTokens

  const LZ_CODE_BUF_SIZE: nat := 65536

  /** What fits the three bytes of a match code. */
  predicate Codable(t: Token) {
    t.Match? ==> MIN_MATCH <= t.len <= MAX_MATCH && 1 <= t.dist <= DICT_SIZE
  }

  type Code = t: Token | Codable(t) witness Literal(0)

  function CodeBytes(t: Code): (r: seq<Byte>) {
    match t
    case Literal(b) => [b]
    case Match(len, dist) =>
      [(len - MIN_MATCH) as Byte, ((dist - 1) % 256) as Byte, ((dist - 1) / 256) as Byte]
  }

  ghost function Codes(ts: seq<Code>): seq<Byte> {
    if ts == [] then [] else CodeBytes(ts[0]) + Codes(ts[1..])
  }

  function Bit(t: Token): nat { if t.Match? then 1 else 0 }

  function Pow2(k: nat): (p: nat)
    ensures p > 0
  {
    if k == 0 then 1 else 2 * Pow2(k - 1)
  }

  /** The flags of a group, the first code in the lowest bit. */
  ghost function Flags(ts: seq<Code>): (f: nat)
    ensures f < Pow2(|ts|)
  {
    if ts == [] then 0 else Bit(ts[0]) + 2 * Flags(ts[1..])
  }

  /** All codes, eight to a group, each group behind its flags. */
  ghost function Stream(ts: seq<Code>): seq<Byte> {
    if ts == [] then []
    else
      var k := if |ts| < 8 then |ts| else 8;
      Group(ts[..k]) + Stream(ts[k..])
  }

  ghost function Group(ts: seq<Code>): seq<Byte>
    requires |ts| <= 8
  {
    FlagsFit(ts);
    [Flags(ts) as Byte] + Codes(ts)
  }

  lemma Pow2Upto8(k: nat)
    requires k <= 8
    ensures Pow2(k) == [1, 2, 4, 8, 16, 32, 64, 128, 256][k]
  {
    assert Pow2(2) == 4;
    assert Pow2(4) == 16;
    assert Pow2(6) == 64;
    assert Pow2(8) == 256;
  }

  lemma FlagsFit(ts: seq<Code>)
    requires |ts| <= 8
    ensures Flags(ts) < 256
  {
    Pow2Upto8(|ts|);
  }

  lemma {:induction false} CodesAppend(ts: seq<Code>, t: Code)
    ensures Codes(ts + [t]) == Codes(ts) + CodeBytes(t)
  {
    if ts == [] {
      assert [t][1..] == [];
    } else {
      assert (ts + [t])[1..] == ts[1..] + [t];
      CodesAppend(ts[1..], t);
    }
  }

  lemma {:induction false} FlagsAppend(ts: seq<Code>, t: Code)
    ensures Flags(ts + [t]) == Flags(ts) + Bit(t) * Pow2(|ts|)
  {
    if ts == [] {
      assert [t][1..] == [];
    } else {
      assert (ts + [t])[1..] == ts[1..] + [t];
      FlagsAppend(ts[1..], t);
    }
  }

  lemma StreamGroup(g: seq<Code>)
    requires 1 <= |g| <= 8
    ensures Stream(g) == Group(g)
  {
    hide Group;
    assert g[..|g|] == g && g[|g|..] == [];
    assert Stream([]) == [];
  }

  lemma StreamStep(ts: seq<Code>)
    requires |ts| >= 8
    ensures Stream(ts) == Group(ts[..8]) + Stream(ts[8..])
  {
    hide Group;
  }

  lemma {:induction false} StreamAppend(ts: seq<Code>, g: seq<Code>)
    requires |ts| % 8 == 0 && 1 <= |g| <= 8
    ensures Stream(ts + g) == Stream(ts) + Group(g)
    decreases |ts|
  {
    hide Stream, Group;
    if ts == [] {
      assert ts + g == g;
      StreamGroup(g);
      Empty();
    } else {
      var all := ts + g;
      assert all[..8] == ts[..8] && all[8..] == ts[8..] + g;
      StreamStep(all);
      StreamStep(ts);
      StreamAppend(ts[8..], g);
    }
  }

  lemma Empty()
    ensures Stream([]) == [] && Codes([]) == [] && Flags([]) == 0
  {
  }

  /** The buffer holds `whole` in full groups and `group` in the open one,
      whose flags still stand `left` bits too high. */
  ghost predicate Holds(buf: seq<Byte>, ptr: nat, flagsAt: nat, left: nat,
                        whole: seq<Code>, group: seq<Code>)
  {
    && |buf| == LZ_CODE_BUF_SIZE
    && flagsAt < ptr <= LZ_CODE_BUF_SIZE && 1 <= left <= 8
    && |whole| % 8 == 0 && |group| == 8 - left
    && buf[..flagsAt] == Stream(whole)
    && buf[flagsAt + 1..ptr] == Codes(group)
    && buf[flagsAt] as int / Pow2(left) == Flags(group)
  }

  /** The flags byte after one more code. */
  function Pushed(flags: Byte, t: Code): Byte {
    if t.Match? then (flags as int / 2 + 128) as Byte else (flags as int / 2) as Byte
  }

  lemma PushedFlags(flags: Byte, t: Code, left: nat, group: seq<Code>)
    requires 1 <= left <= 8 && |group| == 8 - left
    requires flags as int / Pow2(left) == Flags(group)
    ensures Pushed(flags, t) as int / Pow2(left - 1) == Flags(group + [t])
  {
    hide Flags;
    FlagsAppend(group, t);
    Pow2Upto8(left);
    Pow2Upto8(left - 1);
    Pow2Upto8(8 - left);
    PushedBits(flags as int, left, if t.Match? then 1 else 0);
  }

  lemma PushedBits(f: nat, left: nat, b: nat)
    requires 1 <= left <= 8 && b <= 1 && f < 256
    ensures (f / 2 + 128 * b) / [1, 2, 4, 8, 16, 32, 64, 128, 256][left - 1]
         == f / [1, 2, 4, 8, 16, 32, 64, 128, 256][left] + b * [1, 2, 4, 8, 16, 32, 64, 128, 256][8 - left]
  {
    if left == 1 {}
    else if left == 2 {}
    else if left == 3 {}
    else if left == 4 {}
    else if left == 5 {}
    else if left == 6 {}
    else if left == 7 {}
    else {}
  }

  /** Writing one code behind the others and its flag into the open group. */
  ghost predicate Written(was: seq<Byte>, now: seq<Byte>, ptr: nat, flagsAt: nat, t: Code) {
    && |was| == |now| && flagsAt < ptr && ptr + |CodeBytes(t)| <= |now|
    && now[..flagsAt] == was[..flagsAt]
    && now[flagsAt] == Pushed(was[flagsAt], t)
    && now[flagsAt + 1..ptr] == was[flagsAt + 1..ptr]
    && now[ptr..ptr + |CodeBytes(t)|] == CodeBytes(t)
  }

  lemma WrittenOpen(was: seq<Byte>, now: seq<Byte>, ptr: nat, flagsAt: nat, left: nat,
                    whole: seq<Code>, group: seq<Code>, t: Code)
    requires Holds(was, ptr, flagsAt, left, whole, group) && left > 1
    requires Written(was, now, ptr, flagsAt, t)
    ensures Holds(now, ptr + |CodeBytes(t)|, flagsAt, left - 1, whole, group + [t])
  {
    hide Stream, Codes, Flags, Pow2, CodeBytes, Pushed;
    PushedFlags(was[flagsAt], t, left, group);
    CodesAppend(group, t);
    var end := ptr + |CodeBytes(t)|;
    assert now[flagsAt + 1..end] == now[flagsAt + 1..ptr] + now[ptr..end];
  }

  lemma WrittenFull(was: seq<Byte>, now: seq<Byte>, ptr: nat, flagsAt: nat,
                    whole: seq<Code>, group: seq<Code>, t: Code)
    requires Holds(was, ptr, flagsAt, 1, whole, group)
    requires Written(was, now, ptr, flagsAt, t) && ptr + |CodeBytes(t)| < |now|
    ensures Holds(now, ptr + |CodeBytes(t)| + 1, ptr + |CodeBytes(t)|, 8, whole + (group + [t]), [])
  {
    hide Stream, Codes, Flags, Pow2, CodeBytes, Pushed;
    PushedFlags(was[flagsAt], t, 1, group);
    CodesAppend(group, t);
    var g, end := group + [t], ptr + |CodeBytes(t)|;
    ClosedGroup(now, flagsAt, end, g) by {
      assert now[flagsAt + 1..end] == now[flagsAt + 1..ptr] + now[ptr..end];
      Pow2Upto8(0);
    }
    StreamAppend(whole, g);
    assert now[..end] == now[..flagsAt] + now[flagsAt..end];
    NothingHeld(now[end]);
    assert now[end + 1..end + 1] == [];
  }

  lemma ClosedGroup(buf: seq<Byte>, flagsAt: nat, end: nat, g: seq<Code>)
    requires |g| <= 8 && flagsAt < end <= |buf|
    requires buf[flagsAt + 1..end] == Codes(g) && buf[flagsAt] as int == Flags(g)
    ensures buf[flagsAt..end] == Group(g)
  {
    hide Codes, Flags;
    assert buf[flagsAt..end] == [buf[flagsAt]] + buf[flagsAt + 1..end];
  }

  lemma NothingHeld(b: Byte)
    ensures Codes([]) == [] && b as int / Pow2(8) == Flags([])
  {
    Pow2Upto8(8);
    Empty();
  }

  /** What the bytes hold once the open group's flags are moved down, or its
      empty flags byte is given back. */
  lemma HeldInAll(buf: seq<Byte>, now: seq<Byte>, ptr: nat, flagsAt: nat, left: nat,
                  whole: seq<Code>, group: seq<Code>)
    requires Holds(buf, ptr, flagsAt, left, whole, group)
    requires |now| == |buf| && now[..flagsAt] == buf[..flagsAt] && now[flagsAt + 1..] == buf[flagsAt + 1..]
    requires now[flagsAt] as int == buf[flagsAt] as int / Pow2(left)
    ensures now[..if left == 8 then ptr - 1 else ptr] == Stream(whole + group)
  {
    hide Stream, Flags, Pow2, CodeBytes;
    if left == 8 {
      assert group == [] && whole + group == whole;
      assert Codes([]) == [];
      assert |buf[flagsAt + 1..ptr]| == 0;
      assert now[..ptr - 1] == now[..flagsAt];
    } else {
      assert now[flagsAt + 1..ptr] == now[flagsAt + 1..][..ptr - flagsAt - 1] == buf[flagsAt + 1..ptr];
      ClosedGroup(now, flagsAt, ptr, group);
      StreamAppend(whole, group);
      assert now[..ptr] == now[..flagsAt] + now[flagsAt..ptr];
    }
  }

  /** The state of the loop that reads the codes back: `flags` still holds the
      flags of `group` below a marker bit, `tail` has not been begun. */
  ghost predicate Reading(rest: seq<Byte>, flags: nat, slots: nat, group: seq<Code>, tail: seq<Code>) {
    && slots <= 8 && |group| <= slots && (|group| < slots ==> tail == [])
    && flags == Flags(group) + Pow2(slots)
    && rest == Codes(group) + Stream(tail)
  }

  lemma ReadingDone(flags: nat, slots: nat, group: seq<Code>, tail: seq<Code>)
    requires Reading([], flags, slots, group, tail)
    ensures group + tail == []
  {
    hide Stream, Codes, Flags, Pow2, CodeBytes, Group;
    if tail != [] { StreamFront(tail); }
    if group != [] { CodesFront(group); }
  }

  lemma CodesFront(g: seq<Code>)
    requires g != []
    ensures Codes(g) == CodeBytes(g[0]) + Codes(g[1..]) && |CodeBytes(g[0])| > 0
  {
  }

  function Front(ts: seq<Code>): (k: nat)
  {
    if |ts| < 8 then |ts| else 8
  }

  lemma StreamFront(ts: seq<Code>)
    requires ts != []
    ensures var g := ts[..Front(ts)];
            |Stream(ts)| > 0 && Stream(ts)[0] as int == Flags(g)
            && Stream(ts)[1..] == Codes(g) + Stream(ts[Front(ts)..])
  {
    hide Codes, Flags;
    var g := ts[..Front(ts)];
    assert Stream(ts) == Group(g) + Stream(ts[Front(ts)..]);
  }

  lemma ReadingFlags(rest: seq<Byte>, flags: nat, slots: nat, group: seq<Code>, tail: seq<Code>)
    requires Reading(rest, flags, slots, group, tail)
    ensures flags == 1 <==> slots == 0
  {
    hide Flags, Codes, Stream;
    assert slots == 0 ==> group == [];
    Empty();
    assert slots > 0 ==> Pow2(slots) >= 2;
  }

  /** The next byte opens a group. */
  lemma ReadingOpen(rest: seq<Byte>, flags: nat, group: seq<Code>, tail: seq<Code>)
    requires Reading(rest, flags, 0, group, tail) && rest != []
    ensures group == [] && tail != []
    ensures Reading(rest[1..], rest[0] as int + 256, 8, tail[..Front(tail)], tail[Front(tail)..])
    ensures rest[1..] != []
  {
    hide Flags, Stream, Codes, CodeBytes;
    Empty();
    assert rest == Stream(tail);
    StreamFront(tail);
    CodesFront(tail[..Front(tail)]);
    Pow2Upto8(8);
  }

  /** The lowest flag says which kind the next code is, and its bytes say the rest. */
  lemma ReadingNext(rest: seq<Byte>, flags: nat, slots: nat, group: seq<Code>, tail: seq<Code>)
    requires Reading(rest, flags, slots, group, tail) && rest != [] && slots > 0
    ensures group != [] && CodeBytes(group[0]) <= rest
    ensures flags % 2 == Bit(group[0])
    ensures Reading(rest[|CodeBytes(group[0])|..], flags / 2, slots - 1, group[1..], tail)
  {
    hide Flags, Stream, Codes, CodeBytes, Pow2;
    Empty();
    assert group == [] ==> tail == [] && rest == [];
    CodesFront(group);
    FlagsFront(group, slots);
    assert rest[|CodeBytes(group[0])|..] == Codes(group[1..]) + Stream(tail);
  }

  lemma FlagsFront(g: seq<Code>, slots: nat)
    requires g != [] && slots > 0
    ensures Flags(g) + Pow2(slots) == Bit(g[0]) + 2 * (Flags(g[1..]) + Pow2(slots - 1))
  {
  }

  lemma CodeFromBytes(t: Code, rest: seq<Byte>)
    requires CodeBytes(t) <= rest
    ensures t.Match? ==> |rest| >= 3 && |CodeBytes(t)| == 3
                         && t.len == rest[0] as int + MIN_MATCH
                         && t.dist == rest[1] as int + 256 * rest[2] as int + 1
    ensures t.Literal? ==> |rest| >= 1 && |CodeBytes(t)| == 1 && t.b == rest[0]
  {
    assert forall i :: 0 <= i < |CodeBytes(t)| ==> rest[i] == CodeBytes(t)[i];
  }

  /** `*m_pLZ_flags >> m_num_flags_left` */
  function Shifted(flags: Byte, left: nat): (r: Byte)
    requires left <= 8
    ensures r as int == flags as int / Pow2(left)
  {
    ShiftedFits(flags as int, left);
    (flags as int / Pow2(left)) as Byte
  }

  lemma ShiftedFits(f: nat, left: nat)
    requires f < 256 && left <= 8
    ensures 0 <= f / Pow2(left) < 256
  {
    hide Pow2;
    Pow2Upto8(left);
    if left == 0 {}
    else if left == 1 {}
    else if left == 2 {}
    else if left == 3 {}
    else if left == 4 {}
    else if left == 5 {}
    else if left == 6 {}
    else if left == 7 {}
    else {}
  }

  lemma StartReading(rest: seq<Byte>, ts: seq<Code>)
    requires rest == Stream(ts)
    ensures Reading(rest, 1, 0, [], ts)
  {
    Empty();
  }

  lemma Bounds(buf: seq<Byte>, ptr: nat, flagsAt: nat, left: nat, whole: seq<Code>, group: seq<Code>)
    requires Holds(buf, ptr, flagsAt, left, whole, group)
    ensures |buf| == LZ_CODE_BUF_SIZE && flagsAt < ptr <= LZ_CODE_BUF_SIZE && 1 <= left <= 8
  {
  }

  lemma SameLength(was: seq<Byte>, now: seq<Byte>, ptr: nat, flagsAt: nat, t: Code)
    requires Written(was, now, ptr, flagsAt, t)
    ensures |was| == |now|
  {
  }

  lemma NothingRecorded(buf: seq<Byte>)
    requires |buf| == LZ_CODE_BUF_SIZE
    ensures Holds(buf, 1, 0, 8, [], [])
  {
    Empty();
    NothingHeld(buf[0]);
  }

  lemma OpenGroup(data: seq<Byte>, p: nat, flags: nat, slots: nat, now: seq<Code>, tail: seq<Code>)
    returns (slots': nat, now': seq<Code>, tail': seq<Code>)
    requires p < |data| && Reading(data[p..], flags, slots, now, tail) && flags == 1
    ensures p + 1 < |data| && data[p] as int + 256 != 1 && now' + tail' == now + tail
    ensures Reading(data[p + 1..], data[p] as int + 256, slots', now', tail')
  {
    hide Reading;
    ReadingFlags(data[p..], flags, slots, now, tail);
    ReadingOpen(data[p..], flags, now, tail);
    assert data[p..][1..] == data[p + 1..];
    slots', now', tail' := 8, tail[..Front(tail)], tail[Front(tail)..];
  }

  lemma NextCode(data: seq<Byte>, p: nat, flags: nat, slots: nat, now: seq<Code>, tail: seq<Code>)
    requires p < |data| && Reading(data[p..], flags, slots, now, tail) && flags != 1
    ensures now != [] && slots > 0 && p + |CodeBytes(now[0])| <= |data| && CodeBytes(now[0]) <= data[p..]
    ensures flags % 2 == Bit(now[0])
    ensures Reading(data[p + |CodeBytes(now[0])|..], flags / 2, slots - 1, now[1..], tail)
  {
    hide Reading, CodeBytes;
    ReadingFlags(data[p..], flags, slots, now, tail);
    ReadingNext(data[p..], flags, slots, now, tail);
    assert data[p..][|CodeBytes(now[0])|..] == data[p + |CodeBytes(now[0])|..];
  }

  lemma {:induction false} CodesLength(ts: seq<Code>)
    ensures |Codes(ts)| >= |ts|
  {
    hide Flags, Stream;
    if ts != [] {
      CodesFront(ts);
      CodesLength(ts[1..]);
    }
  }

  lemma {:induction false} StreamLength(ts: seq<Code>)
    requires |ts| % 8 == 0
    ensures 8 * |Stream(ts)| >= 9 * |ts|
    decreases |ts|
  {
    hide Flags, Codes, Group;
    if ts != [] {
      StreamStep(ts);
      GroupLength(ts[..8]);
      StreamLength(ts[8..]);
    }
  }

  lemma GroupLength(g: seq<Code>)
    requires |g| <= 8
    ensures |Group(g)| >= 1 + |g|
  {
    CodesLength(g);
  }

  /** The buffer holds so few codes that, with the end of the block, they can be
      counted in sixteen bits. */
  lemma FewCodes(buf: seq<Byte>, ptr: nat, flagsAt: nat, left: nat, whole: seq<Code>, group: seq<Code>)
    requires Holds(buf, ptr, flagsAt, left, whole, group)
    ensures |whole + group| + 1 < 65536
  {
    hide Flags, Codes, Stream;
    StreamLength(whole);
    CodesLength(group);
    assert |buf[..flagsAt]| == flagsAt && |buf[flagsAt + 1..ptr]| == ptr - flagsAt - 1;
  }

  lemma OneMore(codes: seq<Code>, now: seq<Code>, tail: seq<Code>)
    requires now != []
    ensures (codes + [now[0]]) + (now[1..] + tail) == codes + (now + tail)
  {
    assert now == [now[0]] + now[1..];
  }

  class CodeBuffer {
    const buf: array<Byte>  // m_lz_code_buf
    var ptr: nat            // m_pLZ_code_buf
    var flagsAt: nat        // m_pLZ_flags
    var left: nat           // m_num_flags_left
    ghost var whole: seq<Code>
    ghost var group: seq<Code>

    ghost predicate Valid()
      reads this, buf
    {
      Holds(buf[..], ptr, flagsAt, left, whole, group)
    }

    ghost function Recorded(): seq<Code>
      reads this
    {
      whole + group
    }

    constructor ()
      ensures Valid() && Recorded() == [] && ptr == 1 && fresh(buf)
    {
      buf := new Byte[LZ_CODE_BUF_SIZE];
      ptr, flagsAt, left := 1, 0, 8;
      whole, group := [], [];
      new;
      NothingRecorded(buf[..]);
    }

    method RecordLiteral(lit: Byte)
      requires Valid() && ptr + 2 <= LZ_CODE_BUF_SIZE
      modifies this, buf
      ensures Valid() && Recorded() == old(Recorded()) + [Literal(lit)]
      ensures old(ptr) + 1 <= ptr <= old(ptr) + 2
    {
      ghost var t: Code := Literal(lit);
      buf[ptr] := lit;
      ptr := ptr + 1;
      buf[flagsAt] := (buf[flagsAt] as int / 2) as Byte;
      assert Written(old(buf[..]), buf[..], old(ptr), flagsAt, t);
      NextSlot(t, old(buf[..]));
    }

    method RecordMatch(len: nat, dist: nat)
      requires Valid() && ptr + 4 <= LZ_CODE_BUF_SIZE
      requires MIN_MATCH <= len <= MAX_MATCH && 1 <= dist <= DICT_SIZE
      modifies this, buf
      ensures Valid() && Recorded() == old(Recorded()) + [Match(len, dist)]
      ensures old(ptr) + 3 <= ptr <= old(ptr) + 4
    {
      hide Holds;
      ghost var t: Code := Match(len, dist);
      Bounds(buf[..], ptr, flagsAt, left, whole, group);
      buf[ptr] := (len - MIN_MATCH) as Byte;
      buf[ptr + 1] := ((dist - 1) % 256) as Byte;
      buf[ptr + 2] := ((dist - 1) / 256) as Byte;
      ptr := ptr + 3;
      buf[flagsAt] := (buf[flagsAt] as int / 2 + 128) as Byte;
      assert Written(old(buf[..]), buf[..], old(ptr), flagsAt, t);
      NextSlot(t, old(buf[..]));
    }

    /** The end of both recorders: a full group makes room for new flags. */
    method NextSlot(ghost t: Code, ghost was: seq<Byte>)
      requires ptr >= |CodeBytes(t)|
      requires Holds(was, ptr - |CodeBytes(t)|, flagsAt, left, whole, group)
      requires Written(was, buf[..], ptr - |CodeBytes(t)|, flagsAt, t) && ptr < LZ_CODE_BUF_SIZE
      modifies this
      ensures Valid() && Recorded() == old(Recorded()) + [t]
      ensures old(ptr) <= ptr <= old(ptr) + 1
    {
      hide Holds, Written, CodeBytes;
      Bounds(was, ptr - |CodeBytes(t)|, flagsAt, left, whole, group);
      SameLength(was, buf[..], ptr - |CodeBytes(t)|, flagsAt, t);
      left := left - 1;
      if left == 0 {
        WrittenFull(was, buf[..], ptr - |CodeBytes(t)|, flagsAt, whole, group, t);
        left := 8;
        flagsAt := ptr;
        ptr := ptr + 1;
        whole, group := whole + (group + [t]), [];
      } else {
        WrittenOpen(was, buf[..], ptr - |CodeBytes(t)|, flagsAt, left + 1, whole, group, t);
        group := group + [t];
      }
    }

    /** The codes a block is made of, read back as the Huffman coder reads them;
        the buffer is then empty again. */
    method Drain() returns (codes: seq<Code>)
      requires Valid()
      modifies this, buf
      ensures codes == old(Recorded())
      ensures Valid() && Recorded() == [] && ptr == 1
    {
      hide Holds, Reading, CodeBytes, Codes, Flags, Stream, Group, Pow2;
      Bounds(buf[..], ptr, flagsAt, left, whole, group);
      buf[flagsAt] := Shifted(buf[flagsAt], left);
      ptr := if left == 8 then ptr - 1 else ptr;
      HeldInAll(old(buf[..]), buf[..], old(ptr), flagsAt, left, whole, group);
      codes := ReadBack(whole + group);
      ptr, flagsAt, left := 1, 0, 8;
      whole, group := [], [];
      NothingRecorded(buf[..]);
    }

    /** The loop of tdefl_compress_lz_codes. */
    method ReadBack(ghost ts: seq<Code>) returns (codes: seq<Code>)
      requires ptr <= buf.Length && buf[..ptr] == Stream(ts)
      ensures codes == ts
    {
      hide Reading, CodeBytes, Codes, Flags, Stream, Group, Pow2, Bit;
      var p: nat, flags: nat := 0, 1;
      codes := [];
      ghost var data := buf[..ptr];
      ghost var slots: nat, now: seq<Code>, tail: seq<Code> := 0, [], ts;
      StartReading(data, tail);
      assert data[0..] == data;
      while p < ptr
        invariant 0 <= p <= ptr <= buf.Length && data == buf[..ptr]
        invariant Reading(data[p..], flags, slots, now, tail)
        invariant codes + (now + tail) == ts
      {
        if flags == 1 {
          slots, now, tail := OpenGroup(data, p, flags, slots, now, tail);
          flags := buf[p] as int + 256;
          p := p + 1;
        }
        NextCode(data, p, flags, slots, now, tail);
        OneMore(codes, now, tail);
        var t;
        t, p := CodeAt(p, flags % 2, now[0]);
        codes := codes + [t];
        flags := flags / 2;
        slots, now := slots - 1, now[1..];
      }
      assert data[p..] == [];
      ReadingDone(flags, slots, now, tail);
    }

    method CodeAt(p: nat, flag: nat, ghost code: Code) returns (t: Code, q: nat)
      requires p < ptr <= buf.Length && flag == Bit(code) && CodeBytes(code) <= buf[..ptr][p..]
      ensures t == code && q == p + |CodeBytes(code)| && q > p
    {
      CodeFromBytes(code, buf[..ptr][p..]);
      if flag == 1 {
        t := Match(buf[p] as int + MIN_MATCH, buf[p + 1] as int + 256 * buf[p + 2] as int + 1);
        q := p + 3;
      } else {
        t := Literal(buf[p]);
        q := p + 1;
      }
    }
  }
}
