/** The mirrored ring window of the compressor, the match finder's guarantee
    and the state of the lazy parser, as values. */
module LzWindow {
  import opened LzTokens
  import opened LzCodeBuffer

  const MIRROR: nat := 257  // TDEFL_MAX_MATCH_LEN - 1
  const U32: nat := 0x1_0000_0000
  const U16: nat := 0x1_0000

  /** A 32-bit counter. */
  function Wrap(x: int): (r: nat)
    ensures r < U32
  {
    x % U32
  }

  function Oldest(n: nat): nat { if n < DICT_SIZE then 0 else n - DICT_SIZE }

  function Slot(i: nat): (s: nat)
    ensures s < DICT_SIZE
  {
    i % DICT_SIZE
  }

  /** The ring holds the last DICT_SIZE bytes of `input`, whose first byte
      is number `base`, and repeats its first MIRROR slots behind its end. */
  ghost predicate Window(dict: seq<Byte>, input: seq<Byte>, base: nat) {
    && |dict| == DICT_SIZE + MIRROR
    && forall i :: Oldest(|input|) <= i < |input| ==> Shows(dict, base, i, input[i])
  }

  predicate Shows(dict: seq<Byte>, base: nat, i: nat, b: Byte)
    requires |dict| == DICT_SIZE + MIRROR
  {
    && dict[Slot(base + i)] == b
    && (Slot(base + i) < MIRROR ==> dict[DICT_SIZE + Slot(base + i)] == b)
  }

  /** Storing a byte as `tdefl_compress_normal` does. */
  ghost predicate Stored(was: seq<Byte>, now: seq<Byte>, at: nat, c: Byte)
    requires at < DICT_SIZE
  {
    && |was| == |now| == DICT_SIZE + MIRROR
    && now[at] == c && (at < MIRROR ==> now[DICT_SIZE + at] == c)
    && (forall k :: 0 <= k < |now| && k != at && k != DICT_SIZE + at ==> now[k] == was[k])
  }

  lemma SlotsApart(a: nat, b: nat)
    requires a < b < a + DICT_SIZE
    ensures Slot(a) != Slot(b)
  {
  }

  lemma WindowStored(was: seq<Byte>, now: seq<Byte>, input: seq<Byte>, base: nat, c: Byte)
    requires Window(was, input, base) && Stored(was, now, Slot(base + |input|), c)
    ensures Window(now, input + [c], base)
  {
    var more := input + [c];
    forall i | Oldest(|more|) <= i < |more|
      ensures Shows(now, base, i, more[i])
    {
      hide Slot;
      if i < |input| {
        SlotsApart(base + i, base + |input|);
        assert Shows(was, base, i, input[i]);
      }
    }
  }

  /** Reading on from a slot gives the bytes that follow, past the ring's end too. */
  lemma ReadOn(dict: seq<Byte>, input: seq<Byte>, base: nat, i: nat, k: nat)
    requires Window(dict, input, base) && Oldest(|input|) <= i && i + k < |input| && k <= MIRROR
    ensures Slot(base + i) + k < |dict| && dict[Slot(base + i) + k] == input[i + k]
  {
    assert Shows(dict, base, i + k, input[i + k]);
    SlotOn(base + i, k);
  }

  lemma SlotOn(a: nat, k: nat)
    requires k <= MIRROR
    ensures Slot(a + k) == if Slot(a) + k < DICT_SIZE then Slot(a) + k else Slot(a) + k - DICT_SIZE
  {
  }

  /** The 32-bit position selects the same slot. */
  lemma SlotOfWrapped(a: nat)
    ensures Slot(Wrap(a)) == Slot(a)
  {
  }

  /** A chain entry and the distance the parser takes from it name one slot. */
  lemma SlotOfDistance(p: nat, entry: nat, dist: nat)
    requires entry < U16 && dist == ((p % U32) - entry) % U16 && dist <= p
    ensures Slot(entry) == Slot(p - dist)
  {
    assert (p % U32 - entry - dist) % U16 == 0;
    var a := (p % U32 - entry - dist) / U16;
    var b := p / U32;
    assert p - dist == entry + U16 * a + U32 * b;
    assert p - dist == entry + DICT_SIZE * (2 * a + 131072 * b);
    SlotPeriod(entry, 2 * a + 131072 * b);
  }

  lemma SlotPeriod(a: nat, k: int)
    requires a + DICT_SIZE * k >= 0
    ensures Slot(a) == Slot(a + DICT_SIZE * k)
  {
  }

  /** What `tdefl_find_match` may hand back. */
  ghost predicate Found(input: seq<Byte>, p: nat, maxDist: nat, maxLen: nat, len: nat, dist: nat) {
    1 <= dist <= maxDist && len <= maxLen && Repeats(input, p, len, dist)
  }

  /** A match found one byte ago and not yet recorded. */
  datatype Saved = Saved(len: nat, dist: nat, lit: Byte)

  function Held(saved: Saved): nat { if saved.len == 0 then 0 else 1 }

  /** Position, lookahead, window size and saved match fit the input. */
  ghost predicate Placed(input: seq<Byte>, pos: nat, ahead: nat, size: nat, saved: Saved) {
    && pos + ahead == |input| && ahead <= MAX_MATCH
    && size <= pos && size + ahead <= DICT_SIZE
    && (saved.len > 0 ==> SavedFits(input, pos, ahead, saved))
  }

  ghost predicate SavedFits(input: seq<Byte>, pos: nat, ahead: nat, saved: Saved) {
    && 1 <= pos <= |input| && pos + ahead == |input|
    && MIN_MATCH <= saved.len < 128 && saved.len - 1 <= ahead
    && saved.dist <= DICT_SIZE && saved.lit == input[pos - 1]
    && Repeats(input, pos - 1, saved.len, saved.dist)
  }

  /** One block of the output: the bytes themselves or codes. */
  datatype Block = Raw(bytes: seq<Byte>) | Coded(tokens: seq<Code>)

  /** Stored blocks have 16 bits for their length, symbols are counted in 16. */
  predicate SmallBlock(b: Block) { if b.Raw? then |b.bytes| < U16 else |b.tokens| < U16 - 1 }

  ghost predicate AllSmall(blocks: seq<Block>) { forall i :: 0 <= i < |blocks| ==> SmallBlock(blocks[i]) }

  /** A stored block has 16 bits for its length. */
  function ExpandBlock(out: seq<Byte>, b: Block): Option<seq<Byte>> {
    match b
    case Raw(bytes) => if |bytes| < U16 then Some(out + bytes) else None
    case Coded(tokens) => Expand(out, tokens)
  }

  function ExpandAll(out: seq<Byte>, blocks: seq<Block>): Option<seq<Byte>>
    decreases |blocks|
  {
    if blocks == [] then Some(out)
    else
      var next := ExpandBlock(out, blocks[0]);
      if next.None? then None else ExpandAll(next.value, blocks[1..])
  }

  lemma {:induction false} ExpandAllAppend(out: seq<Byte>, bs: seq<Block>, cs: seq<Block>)
    ensures var r := ExpandAll(out, bs);
            ExpandAll(out, bs + cs) == if r.None? then None else ExpandAll(r.value, cs)
    decreases |bs|
  {
    if bs == [] {
      assert bs + cs == cs;
    } else {
      assert (bs + cs)[1..] == bs[1..] + cs;
      var next := ExpandBlock(out, bs[0]);
      if next.Some? { ExpandAllAppend(next.value, bs[1..], cs); }
    }
  }

  lemma {:induction false} ExpandAllBehind(before: seq<Byte>, out: seq<Byte>, bs: seq<Block>)
    requires ExpandAll(out, bs).Some?
    ensures ExpandAll(before + out, bs) == Some(before + ExpandAll(out, bs).value)
    decreases |bs|
  {
    if bs != [] {
      var next := ExpandBlock(out, bs[0]).value;
      if bs[0].Coded? {
        ExpandBehind(before, out, bs[0].tokens);
      } else {
        assert before + out + bs[0].bytes == before + next;
      }
      ExpandAllBehind(before, next, bs[1..]);
    }
  }

  /** The blocks sent and the codes waiting stand for the input up to `upto`. */
  ghost predicate Encodes(blocks: seq<Block>, sent: nat, waiting: seq<Code>, input: seq<Byte>, upto: nat) {
    && sent <= upto <= |input|
    && ExpandAll([], blocks) == Some(input[..sent])
    && Expand(input[..sent], waiting) == Some(input[..upto])
  }

  lemma LiteralEncodes(blocks: seq<Block>, sent: nat, waiting: seq<Code>, input: seq<Byte>, upto: nat)
    requires Encodes(blocks, sent, waiting, input, upto) && upto < |input|
    ensures Encodes(blocks, sent, waiting + [Literal(input[upto])], input, upto + 1)
  {
    ExpandOne(input[..sent], waiting, Literal(input[upto]));
    assert input[..upto] + [input[upto]] == input[..upto + 1];
  }

  lemma MatchEncodes(blocks: seq<Block>, sent: nat, waiting: seq<Code>, input: seq<Byte>, upto: nat,
                     len: nat, dist: nat)
    requires Encodes(blocks, sent, waiting, input, upto) && Repeats(input, upto, len, dist)
    requires Codable(Match(len, dist))
    ensures var m: Code := Match(len, dist); Encodes(blocks, sent, waiting + [m], input, upto + len)
  {
    ExpandOne(input[..sent], waiting, Match(len, dist));
    CopyRepeats(input, upto, len, dist);
  }

  /** Sending the waiting codes, or the bytes they stand for. */
  lemma SendEncodes(blocks: seq<Block>, sent: nat, waiting: seq<Code>, input: seq<Byte>, upto: nat, b: Block)
    requires Encodes(blocks, sent, waiting, input, upto)
    requires b == Coded(waiting) || (b == Raw(input[sent..upto]) && |b.bytes| < U16)
    ensures Encodes(blocks + [b], upto, [], input, upto)
  {
    ExpandAllAppend([], blocks, [b]);
    assert [b][1..] == [];
    assert input[..sent] + input[sent..upto] == input[..upto];
  }

  lemma MoreEncodes(blocks: seq<Block>, sent: nat, waiting: seq<Code>, input: seq<Byte>, upto: nat,
                    more: seq<Byte>)
    requires Encodes(blocks, sent, waiting, input, upto)
    ensures Encodes(blocks, sent, waiting, input + more, upto)
  {
    assert (input + more)[..sent] == input[..sent];
    assert (input + more)[..upto] == input[..upto];
  }

  /** Longer input lengthens the lookahead and may narrow the window. */
  lemma MorePlaced(input: seq<Byte>, pos: nat, ahead: nat, size: nat, saved: Saved, more: seq<Byte>)
    requires Placed(input, pos, ahead, size, saved) && ahead + |more| <= MAX_MATCH
    ensures Placed(input + more, pos, ahead + |more|,
                   if size + ahead + |more| <= DICT_SIZE then size else DICT_SIZE - ahead - |more|, saved)
  {
  }

  /** What the parser does with the current match: nothing is pending after it
      unless a match was just put aside. */
  lemma MovedPlaced(input: seq<Byte>, pos: nat, ahead: nat, size: nat, saved: Saved, move: nat)
    requires Placed(input, pos, ahead, size, saved) && 1 <= move <= ahead
    ensures Placed(input, pos + move, ahead - move, size + move, saved.(len := 0))
  {
  }

  /** Putting a match aside moves on by the one byte it may still lose. */
  lemma SetAside(input: seq<Byte>, pos: nat, ahead: nat, size: nat, saved: Saved, len: nat, dist: nat)
    requires Placed(input, pos, ahead, size, saved) && Found(input, pos, size, ahead, len, dist)
    requires MIN_MATCH <= len < 128
    ensures Placed(input, pos + 1, ahead - 1, size + 1, Saved(len, dist, input[pos]))
  {
  }
}
