/** The arithmetic of XXH32 in src/xxhash.c, with little-endian reads. */
module XxHash32 {
  import opened XxStream

  const P1: bv32 := 2654435761
  const P2: bv32 := 2246822519
  const P5: bv32 := 374761393

  // ---- the elementary steps, and what undoes them ----

  function Times1(x: bv32): bv32 { x * 2654435761 }
  function Times2(x: bv32): bv32 { x * 2246822519 }
  function Times3(x: bv32): bv32 { x * 3266489917 }
  function Times4(x: bv32): bv32 { x * 668265263 }
  function Times5(x: bv32): bv32 { x * 374761393 }

  function Rotl1(x: bv32): bv32 { (x << 1) | (x >> 31) }
  function Rotl7(x: bv32): bv32 { (x << 7) | (x >> 25) }
  function Rotl11(x: bv32): bv32 { (x << 11) | (x >> 21) }
  function Rotl12(x: bv32): bv32 { (x << 12) | (x >> 20) }
  function Rotl13(x: bv32): bv32 { (x << 13) | (x >> 19) }
  function Rotl17(x: bv32): bv32 { (x << 17) | (x >> 15) }
  function Rotl18(x: bv32): bv32 { (x << 18) | (x >> 14) }

  function Mix13(x: bv32): bv32 { x ^ (x >> 13) }
  function Mix15(x: bv32): bv32 { x ^ (x >> 15) }
  function Mix16(x: bv32): bv32 { x ^ (x >> 16) }

  // ---- the algorithm ----

  datatype Acc = Acc(v1: bv32, v2: bv32, v3: bv32, v4: bv32)

  function Read(s: seq<bv8>, i: nat): bv32
    requires i + 4 <= |s|
  {
    Little4(s[i], s[i + 1], s[i + 2], s[i + 3])
  }

  function Start(seed: bv32): Acc { Acc(seed + P1 + P2, seed + P2, seed + 0, seed - P1) }

  function Lane(v: bv32, w: bv32): bv32 { Times1(Rotl13(v + Times2(w))) }

  function Round(v: Acc, s: seq<bv8>): Acc {
    if |s| < 16 then v
    else Acc(Lane(v.v1, Read(s, 0)), Lane(v.v2, Read(s, 4)), Lane(v.v3, Read(s, 8)), Lane(v.v4, Read(s, 12)))
  }

  function Merge(v: Acc): bv32 { Rotl1(v.v1) + Rotl7(v.v2) + Rotl12(v.v3) + Rotl18(v.v4) }

  function Word(h: bv32, s: seq<bv8>): bv32 {
    if |s| < 4 then h else Turn(Join(h, Read(s, 0)))
  }

  function Plus(h: bv32, w: bv32): bv32 { h + w }

  function Join(h: bv32, w: bv32): bv32 { Plus(h, Times3(w)) }

  function Turn(h: bv32): bv32 { Times4(Rotl17(h)) }

  function Byte(h: bv32, b: bv8): bv32 { Times1(Rotl11(h + Times5(b as bv32))) }

  function Bytes(h: bv32, s: seq<bv8>): bv32
    decreases |s|
  {
    if s == [] then h else Bytes(Byte(h, s[0]), s[1..])
  }

  function Avalanche(h: bv32): bv32 { Mix16(Times3(Mix13(Times2(Mix15(h))))) }

  function Length(len: nat): bv32 { (len % 0x1_0000_0000) as bv32 }

  function Begin(v: Acc, seed: bv32, len: nat): bv32 {
    (if len >= 16 then Merge(v) else seed + P5) + Length(len)
  }

  const XXH32 := Scheme(16, Start, Round, Begin, 4, Word, Bytes, Avalanche)

  /** The loop over the last bytes. */
  method BytesLoop(h0: bv32, s: seq<bv8>) returns (h: bv32)
    ensures h == Bytes(h0, s)
  {
    h := h0;
    var p := 0;
    while p < |s|
      invariant 0 <= p <= |s| && Bytes(h, s[p..]) == Bytes(h0, s)
    {
      assert s[p..][1..] == s[p + 1..];
      h := Byte(h, s[p]);
      p := p + 1;
    }
  }

  /** The one-shot form with its three loops. */
  method OneShot32(input: seq<bv8>, seed: bv32) returns (h: bv32)
    ensures h == Hash(XXH32, seed, input)
  {
    var rest;
    h, rest := Words(XXH32, input, seed);
    h := BytesLoop(h, rest);
    h := Avalanche(h);
  }

  // ---- every step can be undone ----

  function Untimes2(y: bv32): bv32 { y * 3066638151 }

  lemma Untimes2Raw(x: bv32)
    ensures Untimes2(x * 2246822519) == x
  {}

  lemma Times2Injective()
    ensures Injective(Times2)
  {
    forall x ensures Untimes2(Times2(x)) == x { Untimes2Raw(x); }
    Undone(Untimes2, Times2);
  }

  function Untimes3(y: bv32): bv32 { y * 2828982549 }

  lemma Untimes3Raw(x: bv32)
    ensures Untimes3(x * 3266489917) == x
  {}

  lemma Times3Injective()
    ensures Injective(Times3)
  {
    forall x ensures Untimes3(Times3(x)) == x { Untimes3Raw(x); }
    Undone(Untimes3, Times3);
  }

  function Untimes4(y: bv32): bv32 { y * 2701016015 }

  lemma Untimes4Raw(x: bv32)
    ensures Untimes4(x * 668265263) == x
  {}

  lemma Times4Injective()
    ensures Injective(Times4)
  {
    forall x ensures Untimes4(Times4(x)) == x { Untimes4Raw(x); }
    Undone(Untimes4, Times4);
  }

  function Rotr17(y: bv32): bv32 { (y >> 17) | (y << 15) }

  lemma Rotr17Raw(x: bv32)
    ensures Rotr17((x << 17) | (x >> 15)) == x
  {}

  lemma Rotl17Injective()
    ensures Injective(Rotl17)
  {
    forall x ensures Rotr17(Rotl17(x)) == x { Rotr17Raw(x); }
    Undone(Rotr17, Rotl17);
  }

  function Unmix13(y: bv32): bv32 { y ^ (y >> 13) ^ (y >> 26) }

  lemma Unmix13Raw(x: bv32)
    ensures Unmix13(x ^ (x >> 13)) == x
  {}

  lemma Mix13Injective()
    ensures Injective(Mix13)
  {
    forall x ensures Unmix13(Mix13(x)) == x { Unmix13Raw(x); }
    Undone(Unmix13, Mix13);
  }

  function Unmix15(y: bv32): bv32 { y ^ (y >> 15) ^ (y >> 30) }

  lemma Unmix15Raw(x: bv32)
    ensures Unmix15(x ^ (x >> 15)) == x
  {}

  lemma Mix15Injective()
    ensures Injective(Mix15)
  {
    forall x ensures Unmix15(Mix15(x)) == x { Unmix15Raw(x); }
    Undone(Unmix15, Mix15);
  }

  function Unmix16(y: bv32): bv32 { y ^ (y >> 16) }

  lemma Unmix16Raw(x: bv32)
    ensures Unmix16(x ^ (x >> 16)) == x
  {}

  lemma Mix16Injective()
    ensures Injective(Mix16)
  {
    forall x ensures Unmix16(Mix16(x)) == x { Unmix16Raw(x); }
    Undone(Unmix16, Mix16);
  }

  function Minus(h: bv32, y: bv32): bv32 { y - h }

  lemma MinusRaw(h: bv32, x: bv32)
    ensures Minus(h, h + x) == x
  {}

  lemma MinusOf(h: bv32, x: bv32)
    ensures Minus(h, Plus(h, x)) == x
  {
    MinusRaw(h, x);
  }

  lemma PlusCancels(h: bv32, a: bv32, b: bv32)
    requires Plus(h, a) == Plus(h, b)
    ensures a == b
  {
    MinusOf(h, a);
    MinusOf(h, b);
  }

  lemma AvalancheInjective(x: bv32, y: bv32)
    requires Avalanche(x) == Avalanche(y)
    ensures x == y
  {
    Mix15Injective();
    Times2Injective();
    Mix13Injective();
    Times3Injective();
    Mix16Injective();
    Chain5(Mix15, Times2, Mix13, Times3, Mix16, x, y);
  }

  lemma TurnInjective()
    ensures Injective(Turn)
  {
    Rotl17Injective();
    Times4Injective();
  }

  lemma JoinCancels(h: bv32, v: bv32, w: bv32)
    requires Join(h, v) == Join(h, w)
    ensures v == w
  {
    PlusCancels(h, Times3(v), Times3(w));
    Times3Injective();
    Behind(Plus, Times3, h, v, w);
  }

  lemma WordInjective(h: bv32, s: seq<bv8>, t: seq<bv8>)
    requires |s| == |t| == 4 && Word(h, s) == Word(h, t)
    ensures s == t
  {
    var v, w := Read(s, 0), Read(t, 0);
    TurnInjective();
    if Join(h, v) == Join(h, w) { JoinCancels(h, v, w); }
    Through(Turn, Join, h, v, w);
    Little4Injective(s[0], s[1], s[2], s[3], t[0], t[1], t[2], t[3]);
  }

  /** No step of XXH32 on a four-byte input loses anything. */
  lemma IsLossless()
    ensures Lossless(XXH32)
  {
    forall x, y | XXH32.mix(x) == XXH32.mix(y) ensures x == y { AvalancheInjective(x, y); }
    forall h, s, t | |s| == |t| == XXH32.size && XXH32.word(h, s) == XXH32.word(h, t)
      ensures s == t { WordInjective(h, s, t); }
  }

  /** With any seed, XXH32 of different four-byte inputs differs. */
  lemma Injective32(seed: bv32, s: seq<bv8>, t: seq<bv8>)
    requires |s| == |t| == 4 && Hash(XXH32, seed, s) == Hash(XXH32, seed, t)
    ensures s == t
  {
    IsLossless();
    InjectiveOnWords(XXH32, seed, s, t);
  }
}
