/** LZ77 tokens and what they expand to: section 3.2.3 of RFC 1951. */
module LzTokens {
  newtype Byte = x: int | 0 <= x < 256

  const DICT_SIZE: nat := 32768
  const MIN_MATCH: nat := 3
  const MAX_MATCH: nat := 258

  datatype Token = Literal(b: Byte) | Match(len: nat, dist: nat)

  datatype Option<T> = None | Some(value: T)

  /** A match copies byte by byte, so it may run into its own output. */
  function Copy(out: seq<Byte>, len: nat, dist: nat): (r: seq<Byte>)
    requires 1 <= dist <= |out|
    ensures |r| == |out| + len && out <= r
    decreases len
  {
    if len == 0 then out else Copy(out + [out[|out| - dist]], len - 1, dist)
  }

  /** A match that reaches back before the first byte is invalid. */
  function Apply(out: seq<Byte>, t: Token): (r: Option<seq<Byte>>)
    ensures r.Some? ==> out <= r.value
  {
    match t
    case Literal(b) => Some(out + [b])
    case Match(len, dist) => if 1 <= dist <= |out| then Some(Copy(out, len, dist)) else None
  }

  function Expand(out: seq<Byte>, ts: seq<Token>): (r: Option<seq<Byte>>)
    decreases |ts|
  {
    if ts == [] then Some(out)
    else
      var next := Apply(out, ts[0]);
      if next.None? then None else Expand(next.value, ts[1..])
  }

  lemma {:induction false} ExpandOne(out: seq<Byte>, ts: seq<Token>, t: Token)
    ensures var r := Expand(out, ts);
            Expand(out, ts + [t]) == if r.None? then None else Apply(r.value, t)
    decreases |ts|
  {
    if ts == [] {
      assert [t][1..] == [];
    } else {
      assert (ts + [t])[1..] == ts[1..] + [t];
      var next := Apply(out, ts[0]);
      if next.Some? { ExpandOne(next.value, ts[1..], t); }
    }
  }

  lemma {:induction false} CopyBehind(before: seq<Byte>, out: seq<Byte>, len: nat, dist: nat)
    requires 1 <= dist <= |out|
    ensures Copy(before + out, len, dist) == before + Copy(out, len, dist)
    decreases len
  {
    if len > 0 {
      var more := out + [out[|out| - dist]];
      assert before + out + [(before + out)[|before + out| - dist]] == before + more;
      CopyBehind(before, more, len - 1, dist);
    }
  }

  /** Tokens that stand on their own mean the same behind any other output. */
  lemma {:induction false} ExpandBehind(before: seq<Byte>, out: seq<Byte>, ts: seq<Token>)
    requires Expand(out, ts).Some?
    ensures Expand(before + out, ts) == Some(before + Expand(out, ts).value)
    decreases |ts|
  {
    if ts != [] {
      var next := Apply(out, ts[0]).value;
      if ts[0].Match? {
        CopyBehind(before, out, ts[0].len, ts[0].dist);
      } else {
        assert before + out + [ts[0].b] == before + next;
      }
      ExpandBehind(before, next, ts[1..]);
    }
  }

  /** The `len` bytes from `p` on repeat the ones `dist` earlier. */
  ghost predicate Repeats(input: seq<Byte>, p: nat, len: nat, dist: nat) {
    && 1 <= dist <= p && p + len <= |input|
    && forall i :: p <= i < p + len ==> input[i] == input[i - dist]
  }

  /** A stretch of the input that repeats what came `dist` earlier is what the
      match expands to, overlap included. */
  lemma {:induction false} CopyRepeats(input: seq<Byte>, p: nat, len: nat, dist: nat)
    requires Repeats(input, p, len, dist)
    ensures Copy(input[..p], len, dist) == input[..p + len]
    decreases len
  {
    if len > 0 {
      assert input[p] == input[p - dist];
      assert input[..p] + [input[..p][p - dist]] == input[..p + 1];
      CopyRepeats(input, p + 1, len - 1, dist);
    }
  }
}
