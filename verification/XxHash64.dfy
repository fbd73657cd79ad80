/** The arithmetic of XXH64 in src/xxhash.c, with little-endian reads. */
module XxHash64 {
  import opened XxStream

  const P1: bv64 := 11400714785074694791
  const P2: bv64 := 14029467366897019727
  const P3: bv64 := 1609587929392839161
  const P4: bv64 := 9650029242287828579
  const P5: bv64 := 2870177450012600261

  // ---- the elementary steps, and what undoes them ----

  function Times1(x: bv64): bv64 { x * 11400714785074694791 }
  function Times2(x: bv64): bv64 { x * 14029467366897019727 }
  function Times3(x: bv64): bv64 { x * 1609587929392839161 }
  function Times5(x: bv64): bv64 { x * 2870177450012600261 }

  function Rotl1(x: bv64): bv64 { (x << 1) | (x >> 63) }
  function Rotl7(x: bv64): bv64 { (x << 7) | (x >> 57) }
  function Rotl11(x: bv64): bv64 { (x << 11) | (x >> 53) }
  function Rotl12(x: bv64): bv64 { (x << 12) | (x >> 52) }
  function Rotl18(x: bv64): bv64 { (x << 18) | (x >> 46) }
  function Rotl23(x: bv64): bv64 { (x << 23) | (x >> 41) }
  function Rotl27(x: bv64): bv64 { (x << 27) | (x >> 37) }
  function Rotl31(x: bv64): bv64 { (x << 31) | (x >> 33) }

  function Mix29(x: bv64): bv64 { x ^ (x >> 29) }
  function Mix32(x: bv64): bv64 { x ^ (x >> 32) }
  function Mix33(x: bv64): bv64 { x ^ (x >> 33) }

  // ---- the algorithm ----

  datatype Acc = Acc(v1: bv64, v2: bv64, v3: bv64, v4: bv64)

  function Little8(lo: bv32, hi: bv32): bv64 { (lo as bv64) | (hi as bv64 << 32) }

  function Read4(s: seq<bv8>, i: nat): bv32
    requires i + 4 <= |s|
  {
    Little4(s[i], s[i + 1], s[i + 2], s[i + 3])
  }

  function Read(s: seq<bv8>, i: nat): bv64
    requires i + 8 <= |s|
  {
    Little8(Read4(s, i), Read4(s, i + 4))
  }

  function Start(seed: bv64): Acc { Acc(seed + P1 + P2, seed + P2, seed + 0, seed - P1) }

  function Lane(v: bv64, w: bv64): bv64 { Times1(Rotl31(v + Times2(w))) }

  function Round(v: Acc, s: seq<bv8>): Acc {
    if |s| < 32 then v
    else Acc(Lane(v.v1, Read(s, 0)), Lane(v.v2, Read(s, 8)), Lane(v.v3, Read(s, 16)), Lane(v.v4, Read(s, 24)))
  }

  function Key(w: bv64): bv64 { Times1(Rotl31(Times2(w))) }

  function MergeLane(h: bv64, v: bv64): bv64 { Times1(Xor(h, Key(v))) + P4 }

  function Merge(v: Acc): bv64 {
    MergeLane(MergeLane(MergeLane(MergeLane(Rotl1(v.v1) + Rotl7(v.v2) + Rotl12(v.v3) + Rotl18(v.v4), v.v1), v.v2),
                        v.v3), v.v4)
  }

  function Xor(h: bv64, w: bv64): bv64 { h ^ w }

  function Join(h: bv64, w: bv64): bv64 { Xor(h, Key(w)) }

  function PlusP4(h: bv64): bv64 { h + 9650029242287828579 }

  function Turn(h: bv64): bv64 { PlusP4(Times1(Rotl27(h))) }

  /** Eight bytes of the tail. */
  function Word(h: bv64, s: seq<bv8>): bv64 {
    if |s| < 8 then h else Turn(Join(h, Read(s, 0)))
  }

  /** Four bytes of the tail. */
  function Half(h: bv64, w: bv32): bv64 { Times2(Rotl23(h ^ Times1(w as bv64))) + P3 }

  function Byte(h: bv64, b: bv8): bv64 { Times1(Rotl11(h ^ Times5(b as bv64))) }

  function Bytes(h: bv64, s: seq<bv8>): bv64
    decreases |s|
  {
    if s == [] then h else Bytes(Byte(h, s[0]), s[1..])
  }

  /** Fewer than eight bytes: four of them if there are as many, then single bytes. */
  function Small(h: bv64, s: seq<bv8>): bv64 {
    if |s| >= 4 then Bytes(Half(h, Read4(s, 0)), s[4..]) else Bytes(h, s)
  }

  function Avalanche(h: bv64): bv64 { Mix32(Times3(Mix29(Times2(Mix33(h))))) }

  function Length(len: nat): bv64 { (len % 0x1_0000_0000_0000_0000) as bv64 }

  function Begin(v: Acc, seed: bv64, len: nat): bv64 {
    (if len >= 32 then Merge(v) else seed + P5) + Length(len)
  }

  const XXH64 := Scheme(32, Start, Round, Begin, 8, Word, Small, Avalanche)

  /** The loop over the last bytes. */
  method BytesLoop(h0: bv64, s: seq<bv8>) returns (h: bv64)
    ensures h == Bytes(h0, s)
  {
    h := h0;
    var p := 0;
    while p < |s|
      invariant 0 <= p <= |s| && Bytes(h, s[p..]) == Bytes(h0, s)
    {
      assert s[p..][1..] == s[p + 1..];
      h := Byte(h, s[p]);
      p := p + 1;
    }
  }

  /** The branch for four bytes and the loop over the rest. */
  method SmallLoop(h0: bv64, s: seq<bv8>) returns (h: bv64)
    ensures h == Small(h0, s)
  {
    if 4 <= |s| {
      h := BytesLoop(Half(h0, Read4(s, 0)), s[4..]);
    } else {
      h := BytesLoop(h0, s);
    }
  }

  /** The one-shot form with its three loops. */
  method OneShot64(input: seq<bv8>, seed: bv64) returns (h: bv64)
    ensures h == Hash(XXH64, seed, input)
  {
    var rest;
    h, rest := Words(XXH64, input, seed);
    h := SmallLoop(h, rest);
    h := Avalanche(h);
  }

  // ---- every step can be undone ----

  function Untimes1(y: bv64): bv64 { y * 614540362697595703 }

  lemma Untimes1Raw(x: bv64)
    ensures Untimes1(x * 11400714785074694791) == x
  {}

  lemma Times1Injective()
    ensures Injective(Times1)
  {
    forall x ensures Untimes1(Times1(x)) == x { Untimes1Raw(x); }
    Undone(Untimes1, Times1);
  }

  function Untimes2(y: bv64): bv64 { y * 839798700976720815 }

  lemma Untimes2Raw(x: bv64)
    ensures Untimes2(x * 14029467366897019727) == x
  {}

  lemma Times2Injective()
    ensures Injective(Times2)
  {
    forall x ensures Untimes2(Times2(x)) == x { Untimes2Raw(x); }
    Undone(Untimes2, Times2);
  }

  function Untimes3(y: bv64): bv64 { y * 16855272203555305545 }

  lemma Untimes3Raw(x: bv64)
    ensures Untimes3(x * 1609587929392839161) == x
  {}

  lemma Times3Injective()
    ensures Injective(Times3)
  {
    forall x ensures Untimes3(Times3(x)) == x { Untimes3Raw(x); }
    Undone(Untimes3, Times3);
  }

  function Rotr27(y: bv64): bv64 { (y >> 27) | (y << 37) }

  lemma Rotr27Raw(x: bv64)
    ensures Rotr27((x << 27) | (x >> 37)) == x
  {}

  lemma Rotl27Injective()
    ensures Injective(Rotl27)
  {
    forall x ensures Rotr27(Rotl27(x)) == x { Rotr27Raw(x); }
    Undone(Rotr27, Rotl27);
  }

  function Rotr31(y: bv64): bv64 { (y >> 31) | (y << 33) }

  lemma Rotr31Raw(x: bv64)
    ensures Rotr31((x << 31) | (x >> 33)) == x
  {}

  lemma Rotl31Injective()
    ensures Injective(Rotl31)
  {
    forall x ensures Rotr31(Rotl31(x)) == x { Rotr31Raw(x); }
    Undone(Rotr31, Rotl31);
  }

  function Unmix29(y: bv64): bv64 { y ^ (y >> 29) ^ (y >> 58) }

  lemma Unmix29Raw(x: bv64)
    ensures Unmix29(x ^ (x >> 29)) == x
  {}

  lemma Mix29Injective()
    ensures Injective(Mix29)
  {
    forall x ensures Unmix29(Mix29(x)) == x { Unmix29Raw(x); }
    Undone(Unmix29, Mix29);
  }

  function Unmix32(y: bv64): bv64 { y ^ (y >> 32) }

  lemma Unmix32Raw(x: bv64)
    ensures Unmix32(x ^ (x >> 32)) == x
  {}

  lemma Mix32Injective()
    ensures Injective(Mix32)
  {
    forall x ensures Unmix32(Mix32(x)) == x { Unmix32Raw(x); }
    Undone(Unmix32, Mix32);
  }

  function Unmix33(y: bv64): bv64 { y ^ (y >> 33) }

  lemma Unmix33Raw(x: bv64)
    ensures Unmix33(x ^ (x >> 33)) == x
  {}

  lemma Mix33Injective()
    ensures Injective(Mix33)
  {
    forall x ensures Unmix33(Mix33(x)) == x { Unmix33Raw(x); }
    Undone(Unmix33, Mix33);
  }

  function MinusP4(y: bv64): bv64 { y - 9650029242287828579 }

  lemma MinusP4Raw(x: bv64)
    ensures MinusP4(x + 9650029242287828579) == x
  {}

  lemma PlusP4Injective()
    ensures Injective(PlusP4)
  {
    forall x ensures MinusP4(PlusP4(x)) == x { MinusP4Raw(x); }
    Undone(MinusP4, PlusP4);
  }

  lemma XorTwice(h: bv64, w: bv64)
    ensures h ^ (h ^ w) == w
  {}

  lemma XorBack(h: bv64, w: bv64)
    ensures Xor(h, Xor(h, w)) == w
  {
    XorTwice(h, w);
  }

  lemma XorCancels(h: bv64, a: bv64, b: bv64)
    requires Xor(h, a) == Xor(h, b)
    ensures a == b
  {
    XorBack(h, a);
    XorBack(h, b);
  }

  function LowHalf(w: bv64): bv32 { (w & 0xFFFF_FFFF) as bv32 }
  function HighHalf(w: bv64): bv32 { (w >> 32) as bv32 }

  lemma HalvesRaw(lo: bv32, hi: bv32)
    ensures LowHalf((lo as bv64) | (hi as bv64 << 32)) == lo && HighHalf((lo as bv64) | (hi as bv64 << 32)) == hi
  {}

  lemma HalvesOf(lo: bv32, hi: bv32)
    ensures LowHalf(Little8(lo, hi)) == lo && HighHalf(Little8(lo, hi)) == hi
  {
    HalvesRaw(lo, hi);
  }

  lemma Little8Injective(a: bv32, b: bv32, c: bv32, d: bv32)
    requires Little8(a, b) == Little8(c, d)
    ensures a == c && b == d
  {
    HalvesOf(a, b);
    HalvesOf(c, d);
  }

  lemma ReadHalves(s: seq<bv8>, t: seq<bv8>)
    requires |s| == |t| == 8 && Read(s, 0) == Read(t, 0)
    ensures Read4(s, 0) == Read4(t, 0) && Read4(s, 4) == Read4(t, 4)
  {
    Little8Injective(Read4(s, 0), Read4(s, 4), Read4(t, 0), Read4(t, 4));
  }

  lemma Read4Injective(s: seq<bv8>, t: seq<bv8>, i: nat)
    requires i + 4 <= |s| == |t| && Read4(s, i) == Read4(t, i)
    ensures s[i] == t[i] && s[i + 1] == t[i + 1] && s[i + 2] == t[i + 2] && s[i + 3] == t[i + 3]
  {
    Little4Injective(s[i], s[i + 1], s[i + 2], s[i + 3], t[i], t[i + 1], t[i + 2], t[i + 3]);
  }

  lemma ReadInjective(s: seq<bv8>, t: seq<bv8>)
    requires |s| == |t| == 8 && Read(s, 0) == Read(t, 0)
    ensures s == t
  {
    ReadHalves(s, t);
    Read4Injective(s, t, 0);
    Read4Injective(s, t, 4);
  }

  lemma AvalancheInjective(x: bv64, y: bv64)
    requires Avalanche(x) == Avalanche(y)
    ensures x == y
  {
    Mix33Injective();
    Times2Injective();
    Mix29Injective();
    Times3Injective();
    Mix32Injective();
    Chain5(Mix33, Times2, Mix29, Times3, Mix32, x, y);
  }

  lemma TurnCancels(x: bv64, y: bv64)
    requires Turn(x) == Turn(y)
    ensures x == y
  {
    Rotl27Injective();
    Times1Injective();
    PlusP4Injective();
    Chain3(Rotl27, Times1, PlusP4, x, y);
  }

  lemma TurnInjective()
    ensures Injective(Turn)
  {
    forall x, y | Turn(x) == Turn(y) ensures x == y { TurnCancels(x, y); }
  }

  lemma KeyCancels(x: bv64, y: bv64)
    requires Key(x) == Key(y)
    ensures x == y
  {
    Times2Injective();
    Rotl31Injective();
    Times1Injective();
    Chain3(Times2, Rotl31, Times1, x, y);
  }

  lemma KeyInjective()
    ensures Injective(Key)
  {
    forall x, y | Key(x) == Key(y) ensures x == y { KeyCancels(x, y); }
  }

  lemma JoinCancels(h: bv64, v: bv64, w: bv64)
    requires Join(h, v) == Join(h, w)
    ensures v == w
  {
    XorCancels(h, Key(v), Key(w));
    KeyInjective();
    Behind(Xor, Key, h, v, w);
  }

  lemma WordInjective(h: bv64, s: seq<bv8>, t: seq<bv8>)
    requires |s| == |t| == 8 && Word(h, s) == Word(h, t)
    ensures s == t
  {
    var v, w := Read(s, 0), Read(t, 0);
    TurnInjective();
    if Join(h, v) == Join(h, w) { JoinCancels(h, v, w); }
    Through(Turn, Join, h, v, w);
    ReadInjective(s, t);
  }

  /** No step of XXH64 on an eight-byte input loses anything. */
  lemma IsLossless()
    ensures Lossless(XXH64)
  {
    forall x, y | XXH64.mix(x) == XXH64.mix(y) ensures x == y { AvalancheInjective(x, y); }
    forall h, s, t | |s| == |t| == XXH64.size && XXH64.word(h, s) == XXH64.word(h, t)
      ensures s == t { WordInjective(h, s, t); }
  }

  /** With any seed, XXH64 of different eight-byte inputs differs. */
  lemma Injective64(seed: bv64, s: seq<bv8>, t: seq<bv8>)
    requires |s| == |t| == 8 && Hash(XXH64, seed, s) == Hash(XXH64, seed, t)
    ensures s == t
  {
    IsLossless();
    InjectiveOnWords(XXH64, seed, s, t);
  }
}
