/** The `marked` byte of an object and the macros over it, against the colours
    the collector is described with. */
module LuaColourBits {
  import opened LuaHeap

  type Byte = bv8

  const WHITEBITS: Byte := 0x03
  const BLACKBIT: Byte := 0x04
  const FIXEDBIT: Byte := 0x20
  const MASKMARKS: Byte := 0xF8   // everything but the white and black bits

  function IsWhite(m: Byte): bool { m & WHITEBITS != 0 }
  function IsBlack(m: Byte): bool { m & BLACKBIT != 0 }
  function IsGray(m: Byte): bool { !IsBlack(m) && !IsWhite(m) }
  function LuaCWhite(w: Byte): Byte { w & WHITEBITS }
  function OtherWhiteMask(w: Byte): Byte { w ^ WHITEBITS }
  function IsDead(w: Byte, m: Byte): bool { m & OtherWhiteMask(w) & WHITEBITS != 0 }

  function White2Gray(m: Byte): Byte { m & !WHITEBITS }
  function Gray2Black(m: Byte): Byte { m | BLACKBIT }
  function Black2Gray(m: Byte): Byte { m & !BLACKBIT }
  function ChangeWhite(m: Byte): Byte { m ^ WHITEBITS }
  function MakeWhite(w: Byte, m: Byte): Byte { (m & MASKMARKS) | LuaCWhite(w) }

  /** The test with which `sweeplist` keeps an object. */
  function SweepKeeps(w: Byte, m: Byte): bool { (m ^ WHITEBITS) & OtherWhiteMask(w) != 0 }

  /** At most one of the three colour bits is set. */
  predicate WellColoured(m: Byte) { m & 0x07 == 0 || m & 0x07 == 1 || m & 0x07 == 2 || m & 0x07 == 4 }

  /** `currentwhite` is one white bit and the fixed bit. */
  predicate IsCurrentWhite(w: Byte) { w == 0x21 || w == 0x22 }

  function Abs(m: Byte): Colour
    requires WellColoured(m)
  {
    if m & 1 != 0 then White0 else if m & 2 != 0 then White1 else if m & BLACKBIT != 0 then Black else Gray
  }

  lemma Tests(w: Byte, m: Byte)
    requires WellColoured(m) && IsCurrentWhite(w)
    ensures IsWhite(m) <==> White(Abs(m))
    ensures IsBlack(m) <==> Abs(m) == Black
    ensures IsGray(m) <==> Abs(m) == Gray
    ensures WellColoured(LuaCWhite(w)) && White(Abs(LuaCWhite(w)))
    ensures IsDead(w, m) <==> Abs(m) == OtherWhite(Abs(LuaCWhite(w)))
  {
  }

  /** The flip at the end of `atomic`: the other white, and still the fixed bit
      only after masking; `luaC_white` of it is the other white. */
  lemma Flip(w: Byte)
    requires IsCurrentWhite(w)
    ensures IsCurrentWhite(OtherWhiteMask(w))
    ensures WellColoured(LuaCWhite(w)) && WellColoured(LuaCWhite(OtherWhiteMask(w)))
    ensures Abs(LuaCWhite(OtherWhiteMask(w))) == OtherWhite(Abs(LuaCWhite(w)))
  {
  }

  /** `sweeplist` erases exactly the dead objects without the fixed bit. */
  lemma SweepTest(w: Byte, m: Byte)
    requires WellColoured(m) && IsCurrentWhite(w) && WellColoured(LuaCWhite(w))
    ensures SweepKeeps(w, m) <==> Abs(m) != OtherWhite(Abs(LuaCWhite(w))) || m & FIXEDBIT != 0
  {
  }

  /** Each recolouring does to the byte what it says of the colour, and touches
      no other bit. */
  lemma Recolourings(w: Byte, m: Byte)
    requires WellColoured(m) && IsCurrentWhite(w) && WellColoured(LuaCWhite(w))
    ensures WellColoured(MakeWhite(w, m)) && Abs(MakeWhite(w, m)) == Abs(LuaCWhite(w)) && MakeWhite(w, m) & MASKMARKS == m & MASKMARKS
    ensures IsWhite(m) ==> WellColoured(White2Gray(m)) && Abs(White2Gray(m)) == Gray && White2Gray(m) & MASKMARKS == m & MASKMARKS
    ensures IsGray(m) ==> WellColoured(Gray2Black(m)) && Abs(Gray2Black(m)) == Black && Gray2Black(m) & MASKMARKS == m & MASKMARKS
    ensures IsBlack(m) ==> WellColoured(Black2Gray(m)) && Abs(Black2Gray(m)) == Gray && Black2Gray(m) & MASKMARKS == m & MASKMARKS
    ensures IsWhite(m) ==> WellColoured(ChangeWhite(m)) && Abs(ChangeWhite(m)) == OtherWhite(Abs(m)) && ChangeWhite(m) & MASKMARKS == m & MASKMARKS
  {
  }

  /** The `marked` bytes of a heap stand for its colours and its fixed objects. */
  ghost predicate Represents(bytes: map<Id, Byte>, m: Marks, fixed: set<Id>) {
    bytes.Keys == m.Keys && forall o :: o in m ==> RepresentsAt(bytes[o], m[o], o in fixed)
  }

  predicate RepresentsAt(b: Byte, c: Colour, fixed: bool) {
    WellColoured(b) && Abs(b) == c && (b & FIXEDBIT != 0 <==> fixed)
  }

  /** On the bytes, the sweep keeps exactly the objects that it keeps on colours;
      after the flip of the whites exactly what was white is dead. */
  lemma BytesDecide(bytes: map<Id, Byte>, m: Marks, fixed: set<Id>, w: Byte, o: Id)
    requires Represents(bytes, m, fixed) && IsCurrentWhite(w) && o in m && WellColoured(LuaCWhite(w))
    ensures SweepKeeps(w, bytes[o]) <==> m[o] != OtherWhite(Abs(LuaCWhite(w))) || o in fixed
    ensures IsDead(OtherWhiteMask(w), bytes[o]) <==> m[o] == Abs(LuaCWhite(w))
  {
    hide Abs, WellColoured, SweepKeeps, IsDead, IsCurrentWhite, LuaCWhite, OtherWhiteMask;
    assert RepresentsAt(bytes[o], m[o], o in fixed);
    SweepTest(w, bytes[o]);
    Flip(w);
    Tests(w, bytes[o]);
    Tests(OtherWhiteMask(w), bytes[o]);
  }

  /** Recolouring a byte recolours the object, and nothing else. */
  lemma BytesRecoloured(bytes: map<Id, Byte>, m: Marks, fixed: set<Id>, w: Byte, o: Id)
    requires Represents(bytes, m, fixed) && IsCurrentWhite(w) && o in m && WellColoured(LuaCWhite(w))
    ensures Represents(bytes[o := MakeWhite(w, bytes[o])], m[o := Abs(LuaCWhite(w))], fixed)
    ensures White(m[o]) ==> Represents(bytes[o := White2Gray(bytes[o])], m[o := Gray], fixed)
    ensures m[o] == Gray ==> Represents(bytes[o := Gray2Black(bytes[o])], m[o := Black], fixed)
    ensures m[o] == Black ==> Represents(bytes[o := Black2Gray(bytes[o])], m[o := Gray], fixed)
    ensures White(m[o]) ==> Represents(bytes[o := ChangeWhite(bytes[o])], m[o := OtherWhite(m[o])], fixed)
  {
    hide Abs, WellColoured, IsCurrentWhite, LuaCWhite, MakeWhite, White2Gray, Gray2Black, Black2Gray, ChangeWhite, IsWhite, IsGray, IsBlack;
    assert RepresentsAt(bytes[o], m[o], o in fixed);
    Tests(w, bytes[o]);
    Recolourings(w, bytes[o]);
    FixedKept(bytes[o], MakeWhite(w, bytes[o]));
    FixedKept(bytes[o], White2Gray(bytes[o]));
    FixedKept(bytes[o], Gray2Black(bytes[o]));
    FixedKept(bytes[o], Black2Gray(bytes[o]));
    FixedKept(bytes[o], ChangeWhite(bytes[o]));
  }

  lemma FixedKept(a: Byte, b: Byte)
    ensures a & MASKMARKS == b & MASKMARKS ==> a & FIXEDBIT == b & FIXEDBIT
  {
  }

  /** `luaS_fix` */
  lemma BytesFixed(bytes: map<Id, Byte>, m: Marks, fixed: set<Id>, o: Id)
    requires Represents(bytes, m, fixed) && o in m
    ensures Represents(bytes[o := bytes[o] | FIXEDBIT], m, fixed + {o})
  {
    assert RepresentsAt(bytes[o], m[o], o in fixed);
    assert RepresentsAt(bytes[o] | FIXEDBIT, m[o], true);
    var b := bytes[o := bytes[o] | FIXEDBIT];
    forall x | x in m
      ensures RepresentsAt(b[x], m[x], x in fixed + {o})
    {
      assert RepresentsAt(bytes[x], m[x], x in fixed);
    }
  }
}
