/** The lazy LZ77 parser of the compressor and the blocks it sends. */
module LzCompressor {
  import opened LzTokens
  import opened LzCodeBuffer
  import opened LzWindow

  const HASH_SIZE: nat := 32768
  const HASH_MASK: bv32 := 0x7fff
  const HASH_SHIFT: nat := 5

  newtype Short = x: int | 0 <= x < 65536

  datatype FlushMode = NoFlush | SyncFlush | FullFlush | Finish

  datatype Status = Okay | Done | BadParam | PutBufFailed

  /** What the parser was set up with, and whether the receiver of the output
      takes every block whole. */
  datatype Options = Options(rle: bool, filter: bool, raw: bool, greedy: bool,
                             probesShort: nat, probesLong: nat, takesAll: bool)

  /** The counters of the compressor, and the positions they stand for. */
  datatype Counters = Counters(lookaheadPos: nat, dictPos: nat, totalLzBytes: nat)

  ghost predicate Counted(c: Counters, base: nat, pos: nat, sent: nat, upto: nat, ptr: nat) {
    && c.lookaheadPos == Wrap(base + pos) && c.dictPos == Wrap(base + sent)
    && sent + c.totalLzBytes == upto && c.totalLzBytes <= MAX_MATCH * ptr
  }

  lemma ReadAhead(dict: seq<Byte>, input: seq<Byte>, base: nat, pos: nat, ahead: nat, size: nat, saved: Saved, k: nat)
    requires Window(dict, input, base) && Placed(input, pos, ahead, size, saved) && k < ahead
    ensures Slot(base + pos) + k < |dict| && dict[Slot(base + pos) + k] == input[pos + k]
  {
    hide Window, Slot, SavedFits;
    ReadOn(dict, input, base, pos, k);
  }

  lemma ReadBehind(dict: seq<Byte>, input: seq<Byte>, base: nat, pos: nat, ahead: nat, size: nat, saved: Saved,
                   dist: nat, k: nat)
    requires Window(dict, input, base) && Placed(input, pos, ahead, size, saved) && dist <= size && k < ahead
    ensures Slot(base + pos - dist) + k < |dict| && dict[Slot(base + pos - dist) + k] == input[pos - dist + k]
  {
    hide Window, Slot, SavedFits;
    ReadOn(dict, input, base, pos - dist, k);
  }

  class Compressor {
    const dict: array<Byte>
    const next: array<Short>
    const hash: array<Short>
    const codes: CodeBuffer
    const options: Options
    var counters: Counters
    var lookaheadSize: nat
    var dictSize: nat
    var saved: Saved
    var output: seq<Block>
    var status: Status       // m_prev_return_status
    var wantsToFinish: bool
    var finished: bool
    var outRemaining: nat    // m_output_flush_remaining
    ghost var closed: seq<Block>   // sent up to the last full flush
    ghost var earlier: seq<Byte>   // the input up to it
    ghost var blocks: seq<Block>   // sent since then
    ghost var input: seq<Byte>  // taken since the last full flush
    ghost var base: nat         // taken before
    ghost var pos: nat          // of the input parsed
    ghost var sent: nat         // of the input sent

    /** A new compressor; the window and the chains may hold anything. */
    constructor (options: Options, dict: array<Byte>, next: array<Short>, hash: array<Short>)
      requires dict.Length == DICT_SIZE + MIRROR && next.Length == DICT_SIZE && hash.Length == HASH_SIZE
      requires options.probesShort > 0 && options.probesLong > 0
      ensures Live() && Valid() && output == [] && input == [] && earlier == []
      ensures this.options == options && this.dict == dict && this.next == next && this.hash == hash
      ensures status == Okay && !wantsToFinish && !finished && outRemaining == 0
      ensures fresh(codes) && fresh(codes.buf)
    {
      hide Holds, Window, Placed, Encodes, Counted;
      this.options, this.dict, this.next, this.hash := options, dict, next, hash;
      var buffer := new CodeBuffer();
      codes := buffer;
      NothingYet(dict[..], buffer.ptr);
      counters, lookaheadSize, dictSize, saved := Counters(0, 0, 0), 0, 0, Saved(0, 0, 0);
      output, blocks, input, base, pos, sent := [], [], [], 0, 0, 0;
      status, wantsToFinish, finished, outRemaining := Okay, false, false, 0;
      closed, earlier := [], [];
    }

    /** The blocks sent and the codes waiting stand for the first `upto` bytes. */
    ghost predicate Writing(upto: nat)
      reads this, codes, codes.buf
    {
      && codes.Valid()
      && Encodes(blocks, sent, codes.Recorded(), input, upto)
      && Counted(counters, base, pos, sent, upto, codes.ptr)
    }

    /** What the parser has turned into codes is exactly the input parsed, but
        for the one byte a match put aside may still lose. */
    ghost predicate Sound()
      reads this, dict, codes, codes.buf
    {
      Searchable() && Held(saved) <= pos && Writing(pos - Held(saved))
    }

    /** Sound, and there is room for the next codes. */
    ghost predicate Valid()
      reads this, dict, codes, codes.buf
    {
      Sound() && codes.ptr <= LZ_CODE_BUF_SIZE - 8
    }

    /** Everything sent up to the last full flush, and since. */
    ghost predicate Live()
      reads this
    {
      && output == closed + blocks && ExpandAll([], closed) == Some(earlier) && base == |earlier| && AllSmall(output)
      && (finished ==> wantsToFinish && sent == |input|)
    }

    predicate Shape()
      reads codes
    {
      && dict.Length == DICT_SIZE + MIRROR && next.Length == DICT_SIZE && hash.Length == HASH_SIZE
      && dict != codes.buf && options.probesShort > 0 && options.probesLong > 0
    }

    /** What the match finder needs. */
    ghost predicate Searchable()
      reads this, dict, codes
    {
      && Shape() && Window(dict[..], input, base)
      && Placed(input, pos, lookaheadSize, dictSize, saved)
      && counters.lookaheadPos == Wrap(base + pos)
    }

    /** Compares the lookahead with the bytes at `q`. */
    method MatchLength(q: nat, ghost dist: nat) returns (n: nat)
      requires Searchable() && 1 <= dist <= dictSize && q == Slot(base + pos - dist)
      ensures n <= lookaheadSize && Repeats(input, pos, n, dist)
    {
      hide Window, Placed, Slot;
      var at := Slot(counters.lookaheadPos);
      SlotOfWrapped(base + pos);
      PlacedBounds(input, pos, lookaheadSize, dictSize, saved);
      n := 0;
      while n < lookaheadSize
        invariant n <= lookaheadSize && Repeats(input, pos, n, dist)
      {
        ReadAhead(dict[..], input, base, pos, lookaheadSize, dictSize, saved, n);
        ReadBehind(dict[..], input, base, pos, lookaheadSize, dictSize, saved, dist, n);
        if dict[at + n] != dict[q + n] { break; }
        n := n + 1;
      }
    }

    /** One TDEFL_PROBE: follow the chain, and see whether the match could grow. */
    method Probe(probe: nat, maxDist: nat, len: nat, c0: Byte, c1: Byte)
      returns (stop: bool, hit: bool, q: nat, dist: nat)
      requires Searchable() && maxDist == dictSize && 1 <= len < lookaheadSize && probe < DICT_SIZE
      ensures !stop ==> dist <= maxDist && q == Slot(base + pos - dist)
    {
      hide Window, Placed, Slot;
      PlacedBounds(input, pos, lookaheadSize, dictSize, saved);
      var entry := next[probe] as nat;
      dist := (counters.lookaheadPos - entry) % U16;
      stop, hit, q := true, false, 0;
      if entry == 0 || dist > maxDist { return; }
      SlotOfDistance(base + pos, entry, dist);
      q := Slot(entry);
      hit := dict[q + len] == c0 && dict[q + len - 1] == c1;
      stop := false;
    }

    /** tdefl_find_match: a longer match than `len`, if the chain leads to one. */
    method FindMatch(len: nat) returns (n: nat, dist: nat)
      requires Searchable() && 2 <= len < 128
      ensures (n == len && dist == 0) || (n > len && Found(input, pos, dictSize, lookaheadSize, n, dist))
    {
      hide Window, Placed, Slot;
      PlacedBounds(input, pos, lookaheadSize, dictSize, saved);
      n, dist := len, 0;
      var at := Slot(counters.lookaheadPos);
      var left := if len >= 32 then options.probesLong else options.probesShort;
      var c0, c1 := dict[at + n], dict[at + n - 1];
      if lookaheadSize <= n { return; }
      SlotOfWrapped(base + pos);
      var probe: nat := at;
      while true
        invariant left >= 1 && probe < DICT_SIZE && len <= n < lookaheadSize
        invariant (n == len && dist == 0) || (n > len && Found(input, pos, dictSize, lookaheadSize, n, dist))
        decreases left
      {
        var stop, hit, d;
        stop, hit, probe, d, left := Search(probe, n, c0, c1, left);
        if stop || d == 0 { return; }
        var k := MatchLength(probe, d);
        if k > n {
          n, dist := k, d;
          if n == lookaheadSize { return; }
          c0, c1 := dict[at + n], dict[at + n - 1];
        }
      }
    }

    /** The inner loop: three probes to a unit of the budget. */
    method Search(from: nat, len: nat, c0: Byte, c1: Byte, budget: nat)
      returns (stop: bool, hit: bool, probe: nat, dist: nat, left: nat)
      requires Searchable() && 1 <= len < lookaheadSize && from < DICT_SIZE && budget >= 1
      ensures probe < DICT_SIZE
      ensures !stop ==> 1 <= left < budget && dist <= dictSize && probe == Slot(base + pos - dist)
    {
      hide Window, Placed;
      probe, left := from, budget;
      while true
        invariant 1 <= left <= budget && probe < DICT_SIZE
        decreases left
      {
        stop, hit, dist := true, false, 0;
        left := left - 1;
        if left == 0 { return; }
        var q;
        stop, hit, q, dist := Probe(probe, dictSize, len, c0, c1);
        if stop { return; }
        probe := q;
        if hit { return; }
        stop, hit, q, dist := Probe(probe, dictSize, len, c0, c1);
        if stop { return; }
        probe := q;
        if hit { return; }
        stop, hit, q, dist := Probe(probe, dictSize, len, c0, c1);
        if stop { return; }
        probe := q;
        if hit { return; }
      }
    }

    /** The run of the byte before, for the run-length-only setting. */
    method FindRun() returns (n: nat, dist: nat)
      requires Searchable() && dictSize > 0
      ensures (n == 0 && dist == 0) || (n >= MIN_MATCH && Found(input, pos, dictSize, lookaheadSize, n, dist))
    {
      hide Window, Placed, Slot;
      PlacedBounds(input, pos, lookaheadSize, dictSize, saved);
      var at := Slot(counters.lookaheadPos);
      SlotOfWrapped(base + pos);
      var c := dict[(at - 1) % DICT_SIZE];
      n, dist := 0, 0;
      while n < lookaheadSize
        invariant n <= lookaheadSize && (n > 0 ==> c == input[pos + n - 1]) && Repeats(input, pos, n, 1)
      {
        ReadAhead(dict[..], input, base, pos, lookaheadSize, dictSize, saved, n);
        ReadBehind(dict[..], input, base, pos, lookaheadSize, dictSize, saved, 1, 0);
        SlotBefore(base + pos);
        if dict[at + n] != c { break; }
        n := n + 1;
      }
      if n < MIN_MATCH { n := 0; } else { dist := 1; }
    }

    /** The match the parser goes on with at this position. */
    method ChooseMatch() returns (n: nat, dist: nat)
      requires Searchable()
      ensures n >= MIN_MATCH && dist > 0 ==> Found(input, pos, dictSize, lookaheadSize, n, dist)
      ensures dist > 0 ==> n >= MIN_MATCH
      ensures n > saved.len && saved.len > 0 ==> dist > 0
    {
      hide Window, Placed, Slot;
      PlacedBounds(input, pos, lookaheadSize, dictSize, saved);
      n, dist := if saved.len != 0 then saved.len else MIN_MATCH - 1, 0;
      if options.rle || options.raw {
        if dictSize != 0 && !options.raw {
          n, dist := FindRun();
        }
      } else {
        n, dist := FindMatch(n);
      }
      if (n == MIN_MATCH && dist >= 8 * 1024) || Slot(counters.lookaheadPos) == dist ||
        (options.filter && n <= 5)
      {
        n, dist := 0, 0;
      }
    }

    /** tdefl_record_literal */
    method PutLiteral(lit: Byte, ghost upto: nat)
      requires Writing(upto) && upto < |input| && lit == input[upto] && codes.ptr + 2 <= LZ_CODE_BUF_SIZE
      modifies this`counters, codes, codes.buf
      ensures Writing(upto + 1) && codes.ptr <= old(codes.ptr) + 2
      ensures counters.lookaheadPos == old(counters.lookaheadPos)
    {
      hide Holds, Encodes, Repeats;
      LiteralEncodes(blocks, sent, codes.Recorded(), input, upto);
      counters := counters.(totalLzBytes := counters.totalLzBytes + 1);
      codes.RecordLiteral(lit);
    }

    /** tdefl_record_match */
    method PutMatch(len: nat, dist: nat, ghost upto: nat)
      requires Writing(upto) && Repeats(input, upto, len, dist) && codes.ptr + 4 <= LZ_CODE_BUF_SIZE
      requires MIN_MATCH <= len <= MAX_MATCH && 1 <= dist <= DICT_SIZE
      modifies this`counters, codes, codes.buf
      ensures Writing(upto + len) && codes.ptr <= old(codes.ptr) + 4
      ensures counters.lookaheadPos == old(counters.lookaheadPos)
    {
      hide Holds, Encodes, Repeats;
      MatchEncodes(blocks, sent, codes.Recorded(), input, upto, len, dist);
      counters := counters.(totalLzBytes := counters.totalLzBytes + len);
      codes.RecordMatch(len, dist);
    }

    /** The codes are recorded; the lookahead is still to move on. */
    ghost predicate Ready(move: nat)
      reads this, dict, codes, codes.buf
    {
      && Shape() && Window(dict[..], input, base) && counters.lookaheadPos == Wrap(base + pos)
      && 1 <= move <= lookaheadSize && Held(saved) <= pos + move
      && Placed(input, pos + move, lookaheadSize - move, dictSize + move, saved)
      && Writing(pos + move - Held(saved))
    }

    /** One turn of the parsing state machine on a match, or none, at the
        current position. */
    method Parse(n: nat, dist: nat)
      requires Valid() && lookaheadSize > 0
      requires dist > 0 ==> n >= MIN_MATCH && Found(input, pos, dictSize, lookaheadSize, n, dist)
      requires n > saved.len && saved.len > 0 ==> dist > 0
      modifies this`counters, this`saved, this`pos, this`lookaheadSize, this`dictSize, codes, codes.buf
      ensures Sound() && codes.ptr <= LZ_CODE_BUF_SIZE - 2
      ensures 0 <= lookaheadSize < old(lookaheadSize)
    {
      hide Holds, Window, Placed, Encodes, Counted, Slot, Repeats;
      PlacedBounds(input, pos, lookaheadSize, dictSize, saved);
      SlotOfWrapped(base + pos);
      ReadAhead(dict[..], input, base, pos, lookaheadSize, dictSize, saved, 0);
      var move: nat := 1;
      if saved.len != 0 {
        move := ParseSaved(n, dist, dict[Slot(counters.lookaheadPos)]);
      } else if dist == 0 {
        PutLiteral(dict[Slot(counters.lookaheadPos)], pos);
        MovedPlaced(input, pos, lookaheadSize, dictSize, saved, 1);
      } else if options.greedy || options.rle || n >= 128 {
        move := TakeMatch(n, dist);
      } else {
        PutAside(n, dist, dict[Slot(counters.lookaheadPos)]);
      }
      Advance(move);
    }

    /** A match was put aside one byte ago: the longer of the two is taken. */
    method ParseSaved(n: nat, dist: nat, here: Byte) returns (move: nat)
      requires Valid() && lookaheadSize > 0 && here == input[pos] && saved.len > 0
      requires dist > 0 ==> n >= MIN_MATCH && Found(input, pos, dictSize, lookaheadSize, n, dist)
      requires n > saved.len ==> dist > 0
      modifies this`counters, this`saved, codes, codes.buf
      ensures Ready(move) && codes.ptr <= LZ_CODE_BUF_SIZE - 2
    {
      hide Holds, Window, Placed, Encodes, Counted, Slot, Repeats;
      PlacedBounds(input, pos, lookaheadSize, dictSize, saved);
      SavedMatch(input, pos, lookaheadSize, dictSize, saved);
      if n > saved.len {
        PutLiteral(saved.lit, pos - 1);
        if n >= 128 {
          move := TakeMatch(n, dist);
        } else {
          PutAside(n, dist, here);
          move := 1;
        }
      } else {
        PutMatch(saved.len, saved.dist, pos - 1);
        move := saved.len - 1;
        MovedPlaced(input, pos, lookaheadSize, dictSize, saved, move);
        saved := saved.(len := 0);
      }
    }

    /** Keeps the current match back while the next byte is looked at. */
    method PutAside(n: nat, dist: nat, here: Byte)
      requires Searchable() && Writing(pos) && lookaheadSize > 0 && here == input[pos]
      requires MIN_MATCH <= n < 128 && Found(input, pos, dictSize, lookaheadSize, n, dist)
      modifies this`saved
      ensures Ready(1)
    {
      hide Holds, Window, Encodes, Counted, Slot, Repeats;
      SetAside(input, pos, lookaheadSize, dictSize, saved, n, dist);
      saved := Saved(n, dist, here);
    }

    /** Records the current match at once. */
    method TakeMatch(n: nat, dist: nat) returns (move: nat)
      requires Searchable() && Writing(pos) && codes.ptr + 4 <= LZ_CODE_BUF_SIZE
      requires n >= MIN_MATCH && Found(input, pos, dictSize, lookaheadSize, n, dist)
      modifies this`counters, this`saved, codes, codes.buf
      ensures Ready(move) && codes.ptr <= old(codes.ptr) + 4
    {
      hide Holds, Window, Placed, Encodes, Counted, Slot, Repeats;
      PlacedBounds(input, pos, lookaheadSize, dictSize, saved);
      FoundFits(input, pos, dictSize, lookaheadSize, n, dist);
      PutMatch(n, dist, pos);
      MovedPlaced(input, pos, lookaheadSize, dictSize, saved, n);
      saved := saved.(len := 0);
      move := n;
    }

    /** Moves the lookahead forward. */
    method Advance(move: nat)
      requires Ready(move)
      modifies this`counters, this`pos, this`lookaheadSize, this`dictSize
      ensures Sound() && lookaheadSize == old(lookaheadSize) - move
    {
      hide Holds, Window, Placed, Encodes, Wrap;
      PlacedBounds(input, pos + move, lookaheadSize - move, dictSize + move, saved);
      WrapSum(base + pos, move);
      counters := counters.(lookaheadPos := Wrap(counters.lookaheadPos + move));
      lookaheadSize := lookaheadSize - move;
      dictSize := Min(dictSize + move, DICT_SIZE);
      pos := pos + move;
    }

    /** Stores the next input byte in the ring and its mirror. */
    method StoreByte(at: nat, c: Byte, ghost seen: seq<Byte>)
      requires Shape() && Window(dict[..], seen, base) && at == Slot(base + |seen|)
      modifies dict
      ensures Window(dict[..], seen + [c], base)
    {
      hide Window, Slot;
      dict[at] := c;
      if at < MAX_MATCH - 1 {
        dict[DICT_SIZE + at] := c;
      }
      WindowStored(old(dict[..]), dict[..], seen, base, c);
    }

    /** Puts a position at the head of its hash chain. */
    method Chain(at: nat, h: bv32)
      requires Shape() && at < U32
      modifies next, hash
    {
      var slot := (h & HASH_MASK) as nat;
      next[Slot(at)] := hash[slot];
      hash[slot] := (at % U16) as Short;
    }

    /** The filling loop once two bytes are in the window: the hash rolls. */
    method FillRolling(src: seq<Byte>, from: nat, count: nat)
      requires Shape() && Window(dict[..], input, base) && pos + lookaheadSize == |input|
      requires counters.lookaheadPos == Wrap(base + pos) && from + count <= |src|
      modifies dict, next, hash
      ensures Window(dict[..], input + src[from..from + count], base)
    {
      hide Window, Slot, Wrap;
      var dst := Slot(Wrap(counters.lookaheadPos + lookaheadSize));
      StartSlot(base + pos, lookaheadSize);
      var ins := Wrap(counters.lookaheadPos + lookaheadSize - 2);
      var h := Roll(dict[Slot(ins)] as bv32, dict[Slot(Wrap(ins + 1))]);
      var k := 0;
      assert input + src[from..from] == input;
      while k < count
        invariant 0 <= k <= count && Shape() && 0 <= ins < U32
        invariant Window(dict[..], input + src[from..from + k], base)
        invariant dst == Slot(base + |input| + k)
      {
        var c := src[from + k];
        StoreByte(dst, c, input + src[from..from + k]);
        OneByteMore(input, src, from, k);
        h := Roll(h, c) & HASH_MASK;
        Chain(ins, h);
        dst := Slot(dst + 1);
        NextSlotOf(base + |input| + k);
        ins := Wrap(ins + 1);
        k := k + 1;
      }
    }

    /** The filling loop at the start, when there is not yet a hash to roll. */
    method FillFirst(src: seq<Byte>, from: nat) returns (to: nat)
      requires Shape() && Window(dict[..], input, base) && pos + lookaheadSize == |input|
      requires counters.lookaheadPos == Wrap(base + pos) && from <= |src| && lookaheadSize <= MAX_MATCH
      modifies this`lookaheadSize, dict, next, hash
      ensures from <= to <= |src| && lookaheadSize == old(lookaheadSize) + (to - from)
      ensures lookaheadSize <= MAX_MATCH && (to == |src| || lookaheadSize == MAX_MATCH)
      ensures Window(dict[..], input + src[from..to], base)
    {
      hide Window, Slot, Wrap;
      to := from;
      assert input + src[from..from] == input;
      while to < |src| && lookaheadSize < MAX_MATCH
        invariant from <= to <= |src| && lookaheadSize == old(lookaheadSize) + (to - from)
        invariant lookaheadSize <= MAX_MATCH && Shape()
        invariant Window(dict[..], input + src[from..to], base)
      {
        var c := src[to];
        StartSlot(base + pos, lookaheadSize);
        StoreByte(Slot(Wrap(counters.lookaheadPos + lookaheadSize)), c, input + src[from..to]);
        OneByteMore(input, src, from, to - from);
        to := to + 1;
        lookaheadSize := lookaheadSize + 1;
        if lookaheadSize + dictSize >= MIN_MATCH {
          var ins := Wrap(counters.lookaheadPos + (lookaheadSize - 1) - 2);
          var h := Roll(Roll(dict[Slot(ins)] as bv32, dict[Slot(Wrap(ins + 1))]), c);
          Chain(ins, h);
        }
      }
    }

    /** Fills the lookahead from the source. */
    method Fill(src: seq<Byte>, from: nat) returns (to: nat)
      requires Valid() && from <= |src|
      modifies this`lookaheadSize, this`dictSize, this`input, dict, next, hash
      ensures from <= to <= |src| && Valid() && input == old(input) + src[from..to]
      ensures lookaheadSize == old(lookaheadSize) + (to - from)
      ensures to == |src| || lookaheadSize == MAX_MATCH
    {
      hide Holds, Window, Placed, Encodes, Wrap, Slot;
      PlacedBounds(input, pos, lookaheadSize, dictSize, saved);
      ghost var size, ahead := dictSize, lookaheadSize;
      if lookaheadSize + dictSize >= MIN_MATCH - 1 {
        var count := Min(|src| - from, MAX_MATCH - lookaheadSize);
        FillRolling(src, from, count);
        lookaheadSize := lookaheadSize + count;
        to := from + count;
      } else {
        to := FillFirst(src, from);
      }
      MorePlaced(input, pos, ahead, size, saved, src[from..to]);
      MoreEncodes(blocks, sent, codes.Recorded(), input, pos - Held(saved), src[from..to]);
      dictSize := Min(DICT_SIZE - lookaheadSize, dictSize);
      input := input + src[from..to];
    }

    /** tdefl_flush_block: sends the waiting codes, or instead the bytes they
        stand for when the window still has them all. Whether coding would make
        the block longer, and what the receiver answers, is not known here. */
    method FlushBlock(flush: FlushMode, longer: bool) returns (n: int)
      requires Sound() && Live() && !finished
      modifies this`counters, this`blocks, this`output, this`sent, this`status, this`outRemaining, codes, codes.buf
      ensures Valid() && Live() && sent == pos - Held(saved) && codes.Recorded() == []
      ensures old(output) <= output && output != [] && (options.takesAll ==> n == 0)
      ensures flush == SyncFlush || flush == FullFlush ==> output[|output| - 1] == Raw([])
      ensures if n < 0 then status == PutBufFailed else status == old(status)
      ensures n == 0 && old(outRemaining) == 0 ==> outRemaining == 0
    {
      hide Holds, Window, Placed, Encodes, Counted, Wrap, Slot, ExpandAll;
      SendWaiting(longer);
      if flush == SyncFlush || flush == FullFlush {
        EmptyRaw(blocks, sent, input);
        Send(Raw([]));
      }
      n := *;
      if options.takesAll { n := 0; }
      if n < 0 {
        status := PutBufFailed;
      } else {
        outRemaining := n;
      }
    }

    /** The block itself, and the counters after it. */
    method SendWaiting(longer: bool)
      requires Sound() && output == closed + blocks && AllSmall(output)
      modifies this`counters, this`blocks, this`output, this`sent, codes, codes.buf
      ensures Valid() && sent == pos - Held(saved) && codes.Recorded() == []
      ensures output == closed + blocks && old(output) <= output && output != [] && AllSmall(output)
    {
      hide Holds, Window, Placed, Encodes, Wrap, Slot;
      var behind := Wrap(counters.lookaheadPos - counters.dictPos);
      var raw := options.raw && behind <= dictSize;
      raw := (raw || (counters.totalLzBytes != 0 && longer)) && behind <= dictSize;
      var bytes := [];
      if raw {
        bytes := RawBytes();
      }
      ghost var waiting := codes.Recorded();
      FewCodes(codes.buf[..], codes.ptr, codes.flagsAt, codes.left, codes.whole, codes.group);
      var tokens := codes.Drain();
      var b := if raw then Raw(bytes) else Coded(tokens);
      SendEncodes(blocks, sent, waiting, input, pos - Held(saved), b);
      Send(b);
      WrapSum(base + sent, counters.totalLzBytes);
      sent := pos - Held(saved);
      counters := counters.(dictPos := Wrap(counters.dictPos + counters.totalLzBytes), totalLzBytes := 0);
    }

    method Send(b: Block)
      requires output == closed + blocks && AllSmall(output) && SmallBlock(b)
      modifies this`output, this`blocks
      ensures output == closed + blocks && output == old(output) + [b] && blocks == old(blocks) + [b] && AllSmall(output)
    {
      output := output + [b];
      blocks := blocks + [b];
    }

    /** The bytes of a stored block, out of the ring. */
    method RawBytes() returns (bytes: seq<Byte>)
      requires Sound() && Wrap(counters.lookaheadPos - counters.dictPos) <= dictSize
      ensures bytes == input[sent..pos - Held(saved)] && |bytes| <= DICT_SIZE
    {
      hide Holds, Window, Placed, Slot, Wrap;
      PlacedBounds(input, pos, lookaheadSize, dictSize, saved);
      Bounds(codes.buf[..], codes.ptr, codes.flagsAt, codes.left, codes.whole, codes.group);
      WrapDifference(base, pos, sent);
      bytes := [];
      while |bytes| < counters.totalLzBytes
        invariant |bytes| <= counters.totalLzBytes && bytes == input[sent..sent + |bytes|]
      {
        StartSlot(base + sent, |bytes|);
        ReadOn(dict[..], input, base, sent + |bytes|, 0);
        bytes := bytes + [dict[Slot(Wrap(counters.dictPos + |bytes|))]];
      }
    }

    /** Sends a block when the code buffer is nearly full or coding does not pay. */
    method FlushWhenFull() returns (n: int)
      requires Sound() && Live() && !finished
      modifies this`counters, this`blocks, this`output, this`sent, this`status, this`outRemaining, codes, codes.buf
      ensures Valid() && Live() && old(output) <= output && (options.takesAll ==> n == 0)
      ensures if n < 0 then status == PutBufFailed else status == old(status)
      ensures n == 0 && old(outRemaining) == 0 ==> outRemaining == 0
    {
      hide Holds, Window, Placed, Encodes, Counted, Slot, Wrap, ExpandAll;
      n := 0;
      if codes.ptr > LZ_CODE_BUF_SIZE - 8 ||
        (counters.totalLzBytes > 31 * 1024 &&
         (codes.ptr * 115 / 128 >= counters.totalLzBytes || options.raw))
      {
        var longer := *;
        n := FlushBlock(NoFlush, longer);
      }
    }

    /** One position, or one match, further. */
    method ParseAndFlush() returns (n: int)
      requires Valid() && Live() && !finished && lookaheadSize > 0
      modifies this`counters, this`saved, this`pos, this`lookaheadSize, this`dictSize
      modifies this`blocks, this`output, this`sent, this`status, this`outRemaining, codes, codes.buf
      ensures Valid() && Live() && old(output) <= output && lookaheadSize < old(lookaheadSize) && (options.takesAll ==> n == 0)
      ensures if n < 0 then status == PutBufFailed else status == old(status)
      ensures n == 0 && old(outRemaining) == 0 ==> outRemaining == 0
    {
      hide Holds, Window, Placed, Encodes, Counted, Slot, Wrap, Found, ExpandAll;
      var len, dist := ChooseMatch();
      Parse(len, dist);
      n := FlushWhenFull();
    }

    /** tdefl_compress_normal */
    method CompressNormal(src: seq<Byte>, flush: FlushMode) returns (ok: bool, to: nat, ghost stuck: bool)
      requires Valid() && Live() && !finished && status == Okay && outRemaining == 0
      modifies this`counters, this`saved, this`pos, this`lookaheadSize, this`dictSize, this`input
      modifies this`blocks, this`output, this`sent, this`status, this`outRemaining
      modifies dict, next, hash, codes, codes.buf
      ensures Valid() && Live() && to <= |src| && input == old(input) + src[..to] && old(output) <= output
      ensures !stuck ==> ok && outRemaining == 0 && to == |src| && (flush != NoFlush ==> lookaheadSize == 0)
      ensures options.takesAll ==> !stuck
      ensures status == if ok then Okay else PutBufFailed
    {
      hide Holds, Window, Placed, Encodes, Counted, Slot, Wrap, Found, ExpandAll;
      ok, to, stuck := true, 0, false;
      assert input + src[..0] == input;
      while to < |src| || (flush != NoFlush && lookaheadSize != 0)
        invariant Valid() && Live() && to <= |src| && input == old(input) + src[..to]
        invariant old(output) <= output && status == Okay && !finished && !stuck && ok && outRemaining == 0
        decreases |src| - to + lookaheadSize
      {
        var from := to;
        to := Fill(src, from);
        assert old(input) + src[..from] + src[from..to] == old(input) + src[..to];
        if flush == NoFlush && lookaheadSize < MAX_MATCH { break; }
        var answer := ParseAndFlush();
        if answer != 0 {
          ok, stuck := answer >= 0, true;
          return;
        }
      }
    }

    /** tdefl_compress. A call whose pointers do not fit is `rejected`. It
        ends `drained` when it sent all it had been given; `held` says that the
        receiver did not take a whole block. */
    method Compress(src: seq<Byte>, flush: FlushMode, rejected: bool)
      returns (result: Status, consumed: nat, ghost drained: bool, ghost held: bool)
      requires Valid() && Live()
      modifies this, dict, next, hash, codes, codes.buf
      ensures Valid() && Live() && consumed <= |src| && old(output) <= output
      ensures earlier + input == old(earlier + input) + src[..consumed]
      ensures result == Done || drained ==> ExpandAll([], output) == Some(earlier + input)
      ensures drained && flush == FullFlush ==> closed == output && input == []
      ensures drained ==> consumed == |src| && output != []
      ensures drained && (flush == SyncFlush || flush == FullFlush) ==> output[|output| - 1] == Raw([])
      ensures result == Done && !old(finished) ==> drained
      ensures options.takesAll && !rejected && flush == Finish && old(status == Okay && !finished && outRemaining == 0) ==> result == Done
      ensures drained || flush == NoFlush || old(finished) || old(outRemaining) > 0 || held
           || result == BadParam || result == PutBufFailed
    {
      hide Holds, Window, Placed, Encodes, Counted, Slot, Wrap, ExpandAll;
      consumed, drained, held := 0, false, false;
      assert src[..0] == [];
      if rejected || status != Okay || (wantsToFinish && flush != Finish) {
        status := BadParam;
        return BadParam, 0, false, false;
      }
      wantsToFinish := wantsToFinish || flush == Finish;
      WholeOutput(closed, earlier, blocks, sent, codes.Recorded(), input, pos - Held(saved));
      if outRemaining != 0 || finished {
        assert finished ==> input[..sent] == input;
        result := FlushOutput();
        return;
      }
      consumed, drained, held := CompressAndFlush(src, flush);
      if status != Okay {
        result := status;
        return;
      }
      result := FlushOutput();
    }

    /** The parser's part of the call, and the block that ends a flush. */
    method CompressAndFlush(src: seq<Byte>, flush: FlushMode)
      returns (consumed: nat, ghost drained: bool, ghost held: bool)
      requires Valid() && Live() && !finished && status == Okay && outRemaining == 0
      requires flush == Finish ==> wantsToFinish
      modifies this, dict, next, hash, codes, codes.buf
      ensures Valid() && Live() && consumed <= |src| && old(output) <= output
      ensures earlier + input == old(earlier + input) + src[..consumed]
      ensures finished ==> drained
      ensures drained ==> consumed == |src| && ExpandAll([], output) == Some(earlier + input) && output != []
      ensures drained && flush == FullFlush ==> closed == output && input == []
      ensures drained && (flush == SyncFlush || flush == FullFlush) ==> output[|output| - 1] == Raw([])
      ensures status == Okay || status == PutBufFailed
      ensures drained || flush == NoFlush || held || status == PutBufFailed
      ensures options.takesAll ==> status == Okay && outRemaining == 0 && (flush == Finish ==> finished)
    {
      hide Holds, Window, Placed, Encodes, Counted, Slot, Wrap, ExpandAll;
      drained := false;
      var ok;
      ok, consumed, held := CompressNormal(src, flush);
      assert old(earlier + input) + src[..consumed] == earlier + input;
      if ok && flush != NoFlush && lookaheadSize == 0 && consumed == |src| && outRemaining == 0 {
        ok := Finishing(flush);
        drained := ok;
      }
    }

    /** The last block of a flush. */
    method Finishing(flush: FlushMode) returns (ok: bool)
      requires Valid() && Live() && !finished && lookaheadSize == 0 && flush != NoFlush && status == Okay
      requires flush == Finish ==> wantsToFinish
      modifies this, dict, next, hash, codes, codes.buf
      ensures Valid() && Live() && old(output) <= output
      ensures earlier + input == old(earlier + input)
      ensures ok ==> ExpandAll([], output) == Some(earlier + input) && sent == |input| && output != []
      ensures ok && flush == FullFlush ==> closed == output && input == []
      ensures ok && (flush == SyncFlush || flush == FullFlush) ==> output[|output| - 1] == Raw([])
      ensures status == (if ok then Okay else PutBufFailed) && (finished ==> ok)
      ensures options.takesAll && old(outRemaining) == 0 ==> ok && outRemaining == 0 && (flush == Finish ==> finished)
    {
      hide Holds, Window, Placed, Encodes, Counted, Slot, Wrap, ExpandAll;
      PlacedBounds(input, pos, lookaheadSize, dictSize, saved);
      var longer := *;
      var n := FlushBlock(flush, longer);
      ok := n >= 0;
      if n < 0 { return; }
      finished := flush == Finish;
      WholeOutput(closed, earlier, blocks, sent, codes.Recorded(), input, pos - Held(saved));
      assert input[..|input|] == input;
      if flush == FullFlush {
        StartAgain();
      }
    }

    /** After a full flush nothing may refer to what came before it. */
    method StartAgain()
      requires Valid() && Live() && !finished && lookaheadSize == 0 && sent == |input| && codes.Recorded() == []
      requires ExpandAll([], output) == Some(earlier + input)
      modifies this`dictSize, this`closed, this`earlier, this`blocks, this`base, this`input, this`pos, this`sent
      modifies next, hash
      ensures Valid() && Live() && earlier == old(earlier + input) && closed == output && input == [] && sent == 0
    {
      hide Holds, Window, Placed, Encodes, Counted, Slot, Wrap, ExpandAll;
      ClearChains();
      dictSize := 0;
      Narrowed(input, pos, lookaheadSize, old(dictSize), saved);
      Rebase();
    }

    ghost method Rebase()
      requires Valid() && Live() && !finished && lookaheadSize == 0 && sent == |input| && codes.Recorded() == []
      requires ExpandAll([], output) == Some(earlier + input) && dictSize == 0
      modifies this`closed, this`earlier, this`blocks, this`base, this`input, this`pos, this`sent
      ensures Valid() && Live() && earlier == old(earlier + input) && closed == output && input == [] && sent == 0
    {
      hide Holds, Window, Placed, Encodes, Counted, Slot, Wrap, ExpandAll;
      PlacedBounds(input, pos, lookaheadSize, dictSize, saved);
      Restart(dict[..], counters, base, input, codes.ptr, saved);
      assert output + [] == output;
      closed, earlier, blocks := output, earlier + input, [];
      base, input, pos, sent := base + |input|, [], 0, 0;
    }

    method ClearChains()
      requires Shape()
      modifies next, hash
      ensures forall i :: 0 <= i < HASH_SIZE ==> hash[i] == 0
      ensures forall i :: 0 <= i < DICT_SIZE ==> next[i] == 0
    {
      forall i | 0 <= i < HASH_SIZE { hash[i] := 0; }
      forall i | 0 <= i < DICT_SIZE { next[i] := 0; }
    }

    /** tdefl_flush_output_buffer: the receiver takes some of what is left. */
    method FlushOutput() returns (result: Status)
      modifies this`status, this`outRemaining
      ensures result == status == if finished && outRemaining == 0 then Done else Okay
      ensures outRemaining <= old(outRemaining)
    {
      var n: int := *;
      if 0 <= n <= outRemaining {
        outRemaining := outRemaining - n;
      }
      result := if finished && outRemaining == 0 then Done else Okay;
      status := result;
    }
  }

  /** Behind what was sent before a full flush, what was sent since still means the same. */
  lemma WholeOutput(closed: seq<Block>, earlier: seq<Byte>, blocks: seq<Block>, sent: nat, waiting: seq<Code>,
                    input: seq<Byte>, upto: nat)
    requires ExpandAll([], closed) == Some(earlier) && Encodes(blocks, sent, waiting, input, upto)
    ensures ExpandAll([], closed + blocks) == Some(earlier + input[..sent])
  {
    ExpandAllAppend([], closed, blocks);
    ExpandAllBehind(earlier, [], blocks);
    assert earlier + [] == earlier;
  }

  lemma Narrowed(input: seq<Byte>, pos: nat, ahead: nat, size: nat, saved: Saved)
    requires Placed(input, pos, ahead, size, saved)
    ensures Placed(input, pos, ahead, 0, saved)
  {
  }

  lemma Restart(dict: seq<Byte>, c: Counters, base: nat, input: seq<Byte>, ptr: nat, saved: Saved)
    requires |dict| == DICT_SIZE + MIRROR && saved.len == 0
    requires Counted(c, base, |input|, |input|, |input|, ptr)
    ensures Window(dict, [], base + |input|) && Placed([], 0, 0, 0, saved) && Encodes([], 0, [], [], 0)
    ensures Counted(c, base + |input|, 0, 0, 0, ptr)
  {
  }

  lemma WrapDifference(base: nat, pos: nat, sent: nat)
    requires sent <= pos < sent + U32
    ensures Wrap(Wrap(base + pos) - Wrap(base + sent)) == pos - sent
  {
  }

  lemma EmptyRaw(blocks: seq<Block>, sent: nat, input: seq<Byte>)
    requires Encodes(blocks, sent, [], input, sent)
    ensures Encodes(blocks + [Raw([])], sent, [], input, sent)
  {
    SendEncodes(blocks, sent, [], input, sent, Raw([]));
  }

  /** One step of the rolling hash, before its mask. */
  function Roll(h: bv32, c: Byte): bv32 {
    (h << HASH_SHIFT) ^ (c as bv32)
  }

  lemma StartSlot(a: nat, k: nat)
    ensures Slot(Wrap(Wrap(a) + k)) == Slot(a + k)
  {
    WrapSum(a, k);
    SlotOfWrapped(a + k);
  }

  lemma NextSlotOf(a: nat)
    ensures Slot(Slot(a) + 1) == Slot(a + 1)
  {
  }

  lemma OneByteMore(input: seq<Byte>, src: seq<Byte>, from: nat, k: nat)
    requires from + k < |src|
    ensures input + src[from..from + k] + [src[from + k]] == input + src[from..from + k + 1]
  {
  }

  lemma NothingYet(dict: seq<Byte>, ptr: nat)
    requires |dict| == DICT_SIZE + MIRROR
    ensures Window(dict, [], 0) && Placed([], 0, 0, 0, Saved(0, 0, 0)) && Encodes([], 0, [], [], 0)
    ensures Counted(Counters(0, 0, 0), 0, 0, 0, 0, ptr)
  {
  }

  function Min(a: nat, b: nat): nat { if a < b then a else b }

  lemma WrapSum(a: nat, b: nat)
    ensures Wrap(Wrap(a) + b) == Wrap(a + b)
  {
  }

  lemma SavedMatch(input: seq<Byte>, pos: nat, ahead: nat, size: nat, saved: Saved)
    requires Placed(input, pos, ahead, size, saved) && saved.len > 0
    ensures saved.lit == input[pos - 1] && Repeats(input, pos - 1, saved.len, saved.dist)
    ensures 1 <= saved.dist <= DICT_SIZE
  {
  }

  lemma FoundFits(input: seq<Byte>, pos: nat, size: nat, ahead: nat, n: nat, dist: nat)
    requires Found(input, pos, size, ahead, n, dist)
    ensures 1 <= dist <= size && n <= ahead && Repeats(input, pos, n, dist)
  {
  }

  lemma SlotBefore(a: nat)
    requires a >= 1
    ensures (Slot(a) - 1) % DICT_SIZE == Slot(a - 1)
  {
  }

  lemma PlacedBounds(input: seq<Byte>, pos: nat, ahead: nat, size: nat, saved: Saved)
    requires Placed(input, pos, ahead, size, saved)
    ensures pos + ahead == |input| && ahead <= MAX_MATCH && size <= pos && size + ahead <= DICT_SIZE
    ensures saved.len > 0 ==> MIN_MATCH <= saved.len < 128 && saved.len - 1 <= ahead && pos >= 1
  {
  }
}
