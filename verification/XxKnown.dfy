/** Hashes of a fixed input, which pin down every constant and step of the two schemes. */
module XxKnown {
  import opened XxStream
  import opened XxHash32
  import XxHash64

  /** One stripe, one word and the rest, value by value. */
  lemma OneOfEach<V, H>(sc: Scheme<V, H>, seed: H, stripe: seq<bv8>, word: seq<bv8>, rest: seq<bv8>, v: V, h: H, w: H,
                        r: H, out: H)
    requires Sized(sc) && |stripe| == sc.width && |word| == sc.size && |rest| < sc.size && 2 * sc.size <= sc.width
    requires sc.round(sc.start(seed), stripe) == v && sc.begin(v, seed, sc.width + sc.size + |rest|) == h
    requires sc.word(h, word) == w && sc.small(w, rest) == r && sc.mix(r) == out
    ensures Hash(sc, seed, stripe + word + rest) == out
  {
    var s, t := stripe + word + rest, word + rest;
    assert s[..sc.width] == stripe && s[sc.width..] == t;
    assert t[..sc.size] == word && t[sc.size..] == rest;
    assert Stripes(sc, sc.start(seed), s) == Stripes(sc, v, t) == v;
    assert Rest(sc.width, s) == Rest(sc.width, t) == t;
    assert Tail(sc, h, t) == Tail(sc, w, rest) == r;
  }

  // ---- XXH32 of the bytes 0 to 20 ----

  const STRIPE32: seq<bv8> := [0, 1, 2, 3, 4, 5, 6, 7, 8, 9, 10, 11, 12, 13, 14, 15]

  lemma Stripe32()
    ensures XXH32.round(XXH32.start(0), STRIPE32) == Acc(4162305227, 35811739, 3568353444, 3736827252)
  {
    var s := STRIPE32;
    assert Read(s, 0) == 0x03020100 && Read(s, 4) == 0x07060504 && Read(s, 8) == 0x0B0A0908
           && Read(s, 12) == 0x0F0E0D0C;
  }

  lemma ThereAndBack32(b: bv32)
    ensures (b as nat) as bv32 == b
  {}

  lemma LengthOf32(len: nat)
    requires len < 0x1_0000_0000
    ensures Length(len) == len as bv32
  {}

  lemma TwentyOne(b: bv32)
    requires b == 21
    ensures b as nat == 21
  {}

  lemma Begin32()
    ensures XXH32.begin(Acc(4162305227, 35811739, 3568353444, 3736827252), 0, 21) == 3813019493
  {
    var b: bv32 := 21;
    LengthOf32(21);
    ThereAndBack32(b);
    TwentyOne(b);
  }

  lemma Tail32()
    ensures XXH32.word(3813019493, [16, 17, 18, 19]) == 409941062
    ensures XXH32.small(409941062, [20]) == 1296099049
    ensures XXH32.mix(1296099049) == 3334124689
  {}

  lemma Known32()
    ensures Hash(XXH32, 0, STRIPE32 + [16, 17, 18, 19] + [20]) == 0xC6BAB491
  {
    Stripe32();
    Begin32();
    Tail32();
    OneOfEach(XXH32, 0, STRIPE32, [16, 17, 18, 19], [20], Acc(4162305227, 35811739, 3568353444, 3736827252),
              3813019493, 409941062, 1296099049, 3334124689);
  }

  // ---- XXH64 of the bytes 0 to 44 ----

  const STRIPE64: seq<bv8> := [0, 1, 2, 3, 4, 5, 6, 7, 8, 9, 10, 11, 12, 13, 14, 15, 16, 17, 18, 19, 20, 21, 22, 23,
                               24, 25, 26, 27, 28, 29, 30, 31]

  function Acc64(): XxHash64.Acc {
    XxHash64.Acc(17633065161968017049, 14110704869279212897, 14638598778477696319, 11116238485788892167)
  }

  lemma Read0()
    ensures XxHash64.Read(STRIPE64, 0) == 0x0706050403020100
  {
    assert XxHash64.Read4(STRIPE64, 0) == 0x03020100 && XxHash64.Read4(STRIPE64, 4) == 0x07060504;
  }

  lemma Read8()
    ensures XxHash64.Read(STRIPE64, 8) == 0x0F0E0D0C0B0A0908
  {
    assert XxHash64.Read4(STRIPE64, 8) == 0x0B0A0908 && XxHash64.Read4(STRIPE64, 12) == 0x0F0E0D0C;
  }

  lemma Read16()
    ensures XxHash64.Read(STRIPE64, 16) == 0x1716151413121110
  {
    assert XxHash64.Read4(STRIPE64, 16) == 0x13121110 && XxHash64.Read4(STRIPE64, 20) == 0x17161514;
  }

  lemma Read24()
    ensures XxHash64.Read(STRIPE64, 24) == 0x1F1E1D1C1B1A1918
  {
    assert XxHash64.Read4(STRIPE64, 24) == 0x1B1A1918 && XxHash64.Read4(STRIPE64, 28) == 0x1F1E1D1C;
  }

  lemma Stripe64()
    ensures XxHash64.XXH64.round(XxHash64.XXH64.start(0), STRIPE64) == Acc64()
  {
    Read0();
    Read8();
    Read16();
    Read24();
  }

  lemma Merge64()
    ensures XxHash64.Merge(Acc64()) == 14431182235371641901
  {
    var v := Acc64();
    assert XxHash64.Rotl1(v.v1) + XxHash64.Rotl7(v.v2) + XxHash64.Rotl12(v.v3)
           + XxHash64.Rotl18(v.v4) == 9157853981091550169;
    assert XxHash64.MergeLane(9157853981091550169, v.v1) == 17649624538271494942;
    assert XxHash64.MergeLane(17649624538271494942, v.v2) == 4520189645334068102;
    assert XxHash64.MergeLane(4520189645334068102, v.v3) == 6272900869236996007;
    assert XxHash64.MergeLane(6272900869236996007, v.v4) == 14431182235371641901;
  }

  lemma Begin64()
    ensures XxHash64.XXH64.begin(Acc64(), 0, 45) == 14431182235371641946
  {
    Merge64();
    Length45();
  }

  lemma ThereAndBack(b: bv64)
    ensures (b as nat) as bv64 == b
  {}

  lemma LengthOf(len: nat)
    requires len < 0x1_0000_0000_0000_0000
    ensures XxHash64.Length(len) == len as bv64
  {}

  lemma FortyFive(b: bv64)
    requires b == 45
    ensures b as nat == 45
  {}

  lemma Length45()
    ensures XxHash64.Length(45) == 45
  {
    var b: bv64 := 45;
    LengthOf(45);
    ThereAndBack(b);
    FortyFive(b);
  }

  lemma Tail64()
    ensures XxHash64.XXH64.word(14431182235371641946, [32, 33, 34, 35, 36, 37, 38, 39]) == 17230618818841927309
    ensures XxHash64.XXH64.small(17230618818841927309, [40, 41, 42, 43, 44]) == 17704753124672092634
    ensures XxHash64.XXH64.mix(17704753124672092634) == 1224372500617079775
  {
    var s: seq<bv8> := [32, 33, 34, 35, 36, 37, 38, 39];
    assert XxHash64.Read4(s, 0) == 0x23222120 && XxHash64.Read4(s, 4) == 0x27262524;
    assert XxHash64.Read(s, 0) == 0x2726252423222120;
    var t: seq<bv8> := [40, 41, 42, 43, 44];
    assert XxHash64.Read4(t, 0) == 0x2B2A2928;
    assert XxHash64.Half(17230618818841927309, 0x2B2A2928) == 11693236161973208897;
    assert t[4..] == [44];
    assert XxHash64.Bytes(11693236161973208897, [44]) == 17704753124672092634;
  }

  lemma Known64()
    ensures Hash(XxHash64.XXH64, 0, STRIPE64 + [32, 33, 34, 35, 36, 37, 38, 39] + [40, 41, 42, 43, 44]) ==
            0x10FD_D84D_6409_ABDF
  {
    Stripe64();
    Begin64();
    Tail64();
    OneOfEach(XxHash64.XXH64, 0, STRIPE64, [32, 33, 34, 35, 36, 37, 38, 39], [40, 41, 42, 43, 44], Acc64(),
              14431182235371641946, 17230618818841927309, 17704753124672092634, 1224372500617079775);
  }
}
