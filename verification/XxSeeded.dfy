/** More hashes of fixed inputs: with seeds other than 0, and on both sides of every length at which
    the two schemes change their way. */
module XxSeeded {
  import opened XxStream
  import opened XxHash32
  import XxHash64
  import opened XxKnown

  /** A word at the front of the tail, and the bytes after the last word. */
  lemma TakeWord<V, H>(sc: Scheme<V, H>, h: H, word: seq<bv8>, t: seq<bv8>, after: H)
    requires Sized(sc) && |word| == sc.size && sc.word(h, word) == after
    ensures Tail(sc, h, word + t) == Tail(sc, after, t)
  {
    var s := word + t;
    assert s[..sc.size] == word && s[sc.size..] == t;
  }

  lemma TakeRest<V, H>(sc: Scheme<V, H>, h: H, rest: seq<bv8>, after: H)
    requires Sized(sc) && |rest| < sc.size && sc.small(h, rest) == after
    ensures Tail(sc, h, rest) == after
  {}

  /** An input shorter than a stripe, and one that starts with a whole stripe. */
  lemma Short<V, H>(sc: Scheme<V, H>, seed: H, s: seq<bv8>, h: H, tail: H, out: H)
    requires Sized(sc) && |s| < sc.width && sc.begin(sc.start(seed), seed, |s|) == h
    requires Tail(sc, h, s) == tail && sc.mix(tail) == out
    ensures Hash(sc, seed, s) == out
  {}

  lemma OnlyStripe<V, H>(sc: Scheme<V, H>, seed: H, stripe: seq<bv8>, v: V, h: H, tail: H, out: H)
    requires Sized(sc) && |stripe| == sc.width && sc.round(sc.start(seed), stripe) == v
    requires sc.begin(v, seed, sc.width) == h && sc.small(h, []) == tail && sc.mix(tail) == out
    ensures Hash(sc, seed, stripe) == out
  {
    assert stripe[..sc.width] == stripe && stripe[sc.width..] == [];
    assert Stripes(sc, sc.start(seed), stripe) == Stripes(sc, v, []) == v;
    assert Rest(sc.width, stripe) == Rest(sc.width, []) == [];
  }

  // ---- XXH32 ----

  lemma Length32(len: nat, b: bv32)
    requires len < 256 && b as nat == len
    ensures Length(len) == b
  {
    LengthOf32(len);
    ThereAndBack32(b);
  }

  const NONE: seq<bv8> := []

  lemma Letter32Begin()
    ensures XXH32.begin(Start(0), 0, 1) == 374761394
  {
    Length32(1, 1);
  }

  lemma Letter32Tail()
    ensures Tail(XXH32, 374761394, [97]) == 1694944232
  {
    TakeRest(XXH32, 374761394, [97], 1694944232);
  }

  /** One byte, the letter a, with seed 0. */
  lemma Letter32()
    ensures Hash(XXH32, 0, [97]) == 0x550D7456
  {
    Letter32Begin();
    Letter32Tail();
    assert Avalanche(1694944232) == 1426945110;
    Short(XXH32, 0, [97], 374761394, 1694944232, 1426945110);
  }

  lemma Below32Begin()
    ensures XXH32.begin(Start(0x9E37_79B1), 0x9E37_79B1, 15) == 3029197169
  {
    Length32(15, 15);
  }

  const V0: seq<bv8> := [0, 1, 2, 3]
  const V1: seq<bv8> := [4, 5, 6, 7]
  const V2: seq<bv8> := [8, 9, 10, 11]
  const R3: seq<bv8> := [12, 13, 14]

  lemma Below32Words()
    ensures Word(3029197169, V0) == 912601812 && Word(912601812, V1) == 2434388438 && Word(2434388438, V2) == 2454704126
    ensures Bytes(2454704126, R3) == 3102714406 && Avalanche(3102714406) == 2558270838
  {
    assert Read(V0, 0) == 0x03020100 && Read(V1, 0) == 0x07060504 && Read(V2, 0) == 0x0B0A0908;
    assert R3[1..] == [13, 14] && R3[1..][1..] == [14];
  }

  /** The bytes 0 to 14, one less than a stripe, with a seed. */
  lemma Below32()
    ensures Hash(XXH32, 0x9E37_79B1, V0 + (V1 + (V2 + R3))) == 0x987C1D76
  {
    Below32Begin();
    Below32Words();
    TakeWord(XXH32, 3029197169, V0, V1 + (V2 + R3), 912601812);
    TakeWord(XXH32, 912601812, V1, V2 + R3, 2434388438);
    TakeWord(XXH32, 2434388438, V2, R3, 2454704126);
    TakeRest(XXH32, 2454704126, R3, 3102714406);
    Short(XXH32, 0x9E37_79B1, V0 + (V1 + (V2 + R3)), 3029197169, 3102714406, 2558270838);
  }

  lemma Exact32Begin()
    ensures XXH32.round(XXH32.start(1), [0, 0, 0, 0, 0, 0, 0, 0, 0, 0, 0, 0, 0, 0, 0, 0]) ==
            Acc(2192352068, 2100225965, 4013301760, 3921175657)
    ensures XXH32.begin(Acc(2192352068, 2100225965, 4013301760, 3921175657), 1, 16) == 2423575339
  {
    Length32(16, 16);
    var s: seq<bv8> := [0, 0, 0, 0, 0, 0, 0, 0, 0, 0, 0, 0, 0, 0, 0, 0];
    assert Read(s, 0) == 0x00000000 && Read(s, 4) == 0x00000000 && Read(s, 8) == 0x00000000
           && Read(s, 12) == 0x00000000;
  }

  /** Exactly one stripe, of zero bytes, with seed 1. */
  lemma Exact32()
    ensures Hash(XXH32, 1, [0, 0, 0, 0, 0, 0, 0, 0, 0, 0, 0, 0, 0, 0, 0, 0]) == 0x2DDF560E
  {
    Exact32Begin();
    assert Avalanche(2423575339) == 769611278;
    OnlyStripe(XXH32, 1, [0, 0, 0, 0, 0, 0, 0, 0, 0, 0, 0, 0, 0, 0, 0, 0],
               Acc(2192352068, 2100225965, 4013301760, 3921175657),
               2423575339, 2423575339, 769611278);
  }

  lemma Above32Begin()
    ensures XXH32.round(XXH32.start(0x9E37_79B1), STRIPE32) == Acc(3972765794, 4141239602, 3660479547, 1174517594)
    ensures XXH32.begin(Acc(3972765794, 4141239602, 3660479547, 1174517594), 0x9E37_79B1, 21) == 166371325
  {
    Length32(21, 21);
    var s: seq<bv8> := STRIPE32;
    assert Read(s, 0) == 0x03020100 && Read(s, 4) == 0x07060504 && Read(s, 8) == 0x0B0A0908
           && Read(s, 12) == 0x0F0E0D0C;
  }

  lemma Above32Tail()
    ensures XXH32.word(166371325, [16, 17, 18, 19]) == 2796775341
    ensures XXH32.small(2796775341, [20]) == 2245528507
    ensures XXH32.mix(2245528507) == 423726585
  {}

  /** The bytes 0 to 20 with a seed. */
  lemma Above32()
    ensures Hash(XXH32, 0x9E37_79B1, STRIPE32 + [16, 17, 18, 19] + [20]) == 0x19418DF9
  {
    Above32Begin();
    Above32Tail();
    OneOfEach(XXH32, 0x9E37_79B1, STRIPE32, [16, 17, 18, 19], [20], Acc(3972765794, 4141239602, 3660479547, 1174517594),
              166371325, 2796775341, 2245528507, 423726585);
  }

  // ---- XXH64 ----

  lemma Length64(len: nat, b: bv64)
    requires len < 256 && b as nat == len
    ensures XxHash64.Length(len) == b
  {
    LengthOf(len);
    ThereAndBack(b);
  }

  lemma Letter64Begin()
    ensures XxHash64.XXH64.begin(XxHash64.Start(0), 0, 1) == 2870177450012600262
  {
    Length64(1, 1);
  }

  lemma Letter64Small()
    ensures XxHash64.Small(2870177450012600262, [97]) == 13287193281568231957
  {
    assert XxHash64.Byte(2870177450012600262, 97) == 13287193281568231957;
    assert [97][1..] == NONE;
    assert XxHash64.Bytes(2870177450012600262, [97]) == XxHash64.Bytes(13287193281568231957, NONE);
  }

  lemma Letter64Tail()
    ensures Tail(XxHash64.XXH64, 2870177450012600262, [97]) == 13287193281568231957
  {
    Letter64Small();
    TakeRest(XxHash64.XXH64, 2870177450012600262, [97], 13287193281568231957);
  }

  lemma Letter64Mix()
    ensures XxHash64.Avalanche(13287193281568231957) == 15154266338359012955
  {}

  /** One byte, the letter a, with seed 0. */
  lemma Letter64()
    ensures Hash(XxHash64.XXH64, 0, [97]) == 0xD24EC4F1A98C6E5B
  {
    Letter64Begin();
    Letter64Tail();
    Letter64Mix();
    Short(XxHash64.XXH64, 0, [97], 2870177450012600262, 13287193281568231957, 15154266338359012955);
  }

  lemma Half64Begin()
    ensures XxHash64.XXH64.begin(XxHash64.Start(0x9E37_79B1), 0x9E37_79B1, 12) == 2870177452667036034
  {
    Length64(12, 12);
  }

  lemma Half64Small()
    ensures XxHash64.Small(2290624313575210868, [8, 9, 10, 11]) == 11619391541214077606
  {
    var s: seq<bv8> := [8, 9, 10, 11];
    assert XxHash64.Read4(s, 0) == 0x0B0A0908;
    assert XxHash64.Half(2290624313575210868, 0x0B0A0908) == 11619391541214077606;
    assert s[4..] == NONE;
  }

  lemma Half64Tail()
    ensures Tail(XxHash64.XXH64, 2870177452667036034, [0, 1, 2, 3, 4, 5, 6, 7, 8, 9, 10, 11]) == 11619391541214077606
  {
    assert XxHash64.Read4([0, 1, 2, 3, 4, 5, 6, 7], 0) == 0x03020100
           && XxHash64.Read4([0, 1, 2, 3, 4, 5, 6, 7], 4) == 0x07060504;
    assert XxHash64.Read([0, 1, 2, 3, 4, 5, 6, 7], 0) == 0x0706050403020100;
    assert XxHash64.Word(2870177452667036034, [0, 1, 2, 3, 4, 5, 6, 7]) == 2290624313575210868;
    assert [0, 1, 2, 3, 4, 5, 6, 7] + [8, 9, 10, 11] == [0, 1, 2, 3, 4, 5, 6, 7, 8, 9, 10, 11];
    TakeWord(XxHash64.XXH64, 2870177452667036034, [0, 1, 2, 3, 4, 5, 6, 7], [8, 9, 10, 11], 2290624313575210868);
    Half64Small();
    TakeRest(XxHash64.XXH64, 2290624313575210868, [8, 9, 10, 11], 11619391541214077606);
  }

  lemma Half64Mix()
    ensures XxHash64.Avalanche(11619391541214077606) == 3894095073212010172
  {}

  /** The bytes 0 to 11, a word and exactly a half word, with a seed. */
  lemma Half64()
    ensures Hash(XxHash64.XXH64, 0x9E37_79B1, [0, 1, 2, 3, 4, 5, 6, 7, 8, 9, 10, 11]) == 0x360A9AD658668EBC
  {
    Half64Begin();
    Half64Tail();
    Half64Mix();
    Short(XxHash64.XXH64, 0x9E37_79B1, [0, 1, 2, 3, 4, 5, 6, 7, 8, 9, 10, 11], 2870177452667036034,
          11619391541214077606, 3894095073212010172);
  }

  // the bytes 0 to 30

  const W0: seq<bv8> := [0, 1, 2, 3, 4, 5, 6, 7]
  const W1: seq<bv8> := [8, 9, 10, 11, 12, 13, 14, 15]
  const W2: seq<bv8> := [16, 17, 18, 19, 20, 21, 22, 23]
  const R: seq<bv8> := [24, 25, 26, 27, 28, 29, 30]

  lemma W0Reads()
    ensures XxHash64.Read(W0, 0) == 0x0706050403020100
  {
    assert XxHash64.Read4(W0, 0) == 0x03020100 && XxHash64.Read4(W0, 4) == 0x07060504;
  }

  lemma W1Reads()
    ensures XxHash64.Read(W1, 0) == 0x0F0E0D0C0B0A0908
  {
    assert XxHash64.Read4(W1, 0) == 0x0B0A0908 && XxHash64.Read4(W1, 4) == 0x0F0E0D0C;
  }

  lemma W2Reads()
    ensures XxHash64.Read(W2, 0) == 0x1716151413121110
  {
    assert XxHash64.Read4(W2, 0) == 0x13121110 && XxHash64.Read4(W2, 4) == 0x17161514;
  }

  lemma Below64Begin()
    ensures XxHash64.XXH64.begin(XxHash64.Start(0x9E37_79B1), 0x9E37_79B1, 31) == 2870177452667036053
  {
    Length64(31, 31);
  }

  lemma Below64Word0()
    ensures XxHash64.Word(2870177452667036053, W0) == 16790377901584678772
  {
    W0Reads();
  }

  lemma Below64Word1()
    ensures XxHash64.Word(16790377901584678772, W1) == 16867955791479164674
  {
    W1Reads();
  }

  lemma Below64Word2()
    ensures XxHash64.Word(16867955791479164674, W2) == 16162956012981403864
  {
    W2Reads();
  }

  lemma Below64Small()
    ensures XxHash64.Small(16162956012981403864, R) == 8583253650045625371
  {
    assert XxHash64.Read4(R, 0) == 0x1B1A1918;
    assert XxHash64.Half(16162956012981403864, 0x1B1A1918) == 6391016663263271715;
    assert R[4..] == [28, 29, 30];
    assert XxHash64.Byte(6391016663263271715, 28) == 3848835201888144985;
    assert [28, 29, 30][1..] == [29, 30];
    assert XxHash64.Bytes(6391016663263271715, [28, 29, 30]) == XxHash64.Bytes(3848835201888144985, [29, 30]);
    assert XxHash64.Byte(3848835201888144985, 29) == 17530315457565622117;
    assert [29, 30][1..] == [30];
    assert XxHash64.Bytes(3848835201888144985, [29, 30]) == XxHash64.Bytes(17530315457565622117, [30]);
    assert XxHash64.Byte(17530315457565622117, 30) == 8583253650045625371;
    assert [30][1..] == NONE;
    assert XxHash64.Bytes(17530315457565622117, [30]) == XxHash64.Bytes(8583253650045625371, NONE);
  }

  lemma Below64Tail()
    ensures Tail(XxHash64.XXH64, 2870177452667036053, W0 + (W1 + (W2 + R))) == 8583253650045625371
  {
    Below64Word0();
    Below64Word1();
    Below64Word2();
    Below64Small();
    TakeWord(XxHash64.XXH64, 2870177452667036053, W0, W1 + (W2 + R), 16790377901584678772);
    TakeWord(XxHash64.XXH64, 16790377901584678772, W1, W2 + R, 16867955791479164674);
    TakeWord(XxHash64.XXH64, 16867955791479164674, W2, R, 16162956012981403864);
    TakeRest(XxHash64.XXH64, 16162956012981403864, R, 8583253650045625371);
  }

  lemma Below64Mix()
    ensures XxHash64.Avalanche(8583253650045625371) == 8184901487752288362
  {}

  /** The bytes 0 to 30, one less than a stripe, with a seed. */
  lemma Below64()
    ensures Hash(XxHash64.XXH64, 0x9E37_79B1, W0 + (W1 + (W2 + R))) == 0x71969C89A30A986A
  {
    Below64Begin();
    Below64Tail();
    Below64Mix();
    Short(XxHash64.XXH64, 0x9E37_79B1, W0 + (W1 + (W2 + R)), 2870177452667036053, 8583253650045625371,
          8184901487752288362);
  }

  /** A stripe by its four words. */
  lemma RoundIs(v: XxHash64.Acc, s: seq<bv8>, a: bv64, b: bv64, c: bv64, d: bv64, r: XxHash64.Acc)
    requires |s| == 32 && XxHash64.Read(s, 0) == a && XxHash64.Read(s, 8) == b && XxHash64.Read(s, 16) == c
    requires XxHash64.Read(s, 24) == d
    requires XxHash64.Lane(v.v1, a) == r.v1 && XxHash64.Lane(v.v2, b) == r.v2 && XxHash64.Lane(v.v3, c) == r.v3
    requires XxHash64.Lane(v.v4, d) == r.v4
    ensures XxHash64.Round(v, s) == r
  {}

  const ZEROS: seq<bv8> := seq(32, _ => 0)

  lemma ZeroReads()
    ensures XxHash64.Read(ZEROS, 0) == XxHash64.Read(ZEROS, 8) == XxHash64.Read(ZEROS, 16) ==
            XxHash64.Read(ZEROS, 24) == 0
  {
    assert XxHash64.Read4(ZEROS, 0) == XxHash64.Read4(ZEROS, 4) == XxHash64.Read4(ZEROS, 8) == 0;
    assert XxHash64.Read4(ZEROS, 12) == XxHash64.Read4(ZEROS, 16) == XxHash64.Read4(ZEROS, 20) == 0;
    assert XxHash64.Read4(ZEROS, 24) == XxHash64.Read4(ZEROS, 28) == 0;
  }

  lemma Exact64Start()
    ensures XxHash64.Start(1) == XxHash64.Acc(6983438078262162903, 14029467366897019728, 1, 7046029288634856826)
  {}

  lemma Exact64Round()
    ensures XxHash64.Round(XxHash64.Start(1), ZEROS) ==
            XxHash64.Acc(15314850236757404993, 4756955278768118994, 14048386690725183488, 3490491732735897489)
  {
    Exact64Start();
    ZeroReads();
    assert XxHash64.Lane(6983438078262162903, 0x0000000000000000) == 15314850236757404993;
    assert XxHash64.Lane(14029467366897019728, 0x0000000000000000) == 4756955278768118994;
    assert XxHash64.Lane(1, 0x0000000000000000) == 14048386690725183488;
    assert XxHash64.Lane(7046029288634856826, 0x0000000000000000) == 3490491732735897489;
    RoundIs(XxHash64.Start(1), ZEROS, 0x0000000000000000, 0x0000000000000000, 0x0000000000000000, 0x0000000000000000,
            XxHash64.Acc(15314850236757404993, 4756955278768118994, 14048386690725183488, 3490491732735897489));
  }

  lemma Exact64Begin()
    ensures XxHash64.XXH64.begin(XxHash64.Acc(15314850236757404993, 4756955278768118994, 14048386690725183488,
                                              3490491732735897489), 1, 32) == 13039250389946088792
  {
    Length64(32, 32);
    assert XxHash64.Rotl1(15314850236757404993) + XxHash64.Rotl7(4756955278768118994)
           + XxHash64.Rotl12(14048386690725183488)
           + XxHash64.Rotl18(3490491732735897489) == 16746295064191963541;
    assert XxHash64.MergeLane(16746295064191963541, 15314850236757404993) == 9175726699011565878;
    assert XxHash64.MergeLane(9175726699011565878, 4756955278768118994) == 5988945968253398999;
    assert XxHash64.MergeLane(5988945968253398999, 14048386690725183488) == 5308324520908799866;
    assert XxHash64.MergeLane(5308324520908799866, 3490491732735897489) == 13039250389946088760;
  }

  lemma Exact64Mix()
    ensures XxHash64.Small(13039250389946088792, NONE) == 13039250389946088792
    ensures XxHash64.Avalanche(13039250389946088792) == 8784312348185788002
  {}

  /** Exactly one stripe, of zero bytes, with seed 1. */
  lemma Exact64()
    ensures Hash(XxHash64.XXH64, 1, ZEROS) == 0x79E8258A15B0FE62
  {
    Exact64Round();
    Exact64Begin();
    Exact64Mix();
    OnlyStripe(XxHash64.XXH64, 1, ZEROS,
               XxHash64.Acc(15314850236757404993, 4756955278768118994, 14048386690725183488, 3490491732735897489),
               13039250389946088792, 13039250389946088792, 8784312348185788002);
  }

  lemma Above64Start()
    ensures XxHash64.Start(0x9E37_79B1) ==
            XxHash64.Acc(6983438080916598663, 14029467369551455488, 2654435761, 7046029291289292586)
  {}

  lemma Above64Round()
    ensures XxHash64.Round(XxHash64.Start(0x9E37_79B1), STRIPE64) ==
            XxHash64.Acc(16471395030170033817, 12949034737481229665, 13476928646679713087, 9954568353990908935)
  {
    Above64Start();
    Read0();
    Read8();
    Read16();
    Read24();
    assert XxHash64.Lane(6983438080916598663, 0x0706050403020100) == 16471395030170033817;
    assert XxHash64.Lane(14029467369551455488, 0x0F0E0D0C0B0A0908) == 12949034737481229665;
    assert XxHash64.Lane(2654435761, 0x1716151413121110) == 13476928646679713087;
    assert XxHash64.Lane(7046029291289292586, 0x1F1E1D1C1B1A1918) == 9954568353990908935;
    RoundIs(XxHash64.Start(0x9E37_79B1), STRIPE64, 0x0706050403020100, 0x0F0E0D0C0B0A0908, 0x1716151413121110,
            0x1F1E1D1C1B1A1918,
            XxHash64.Acc(16471395030170033817, 12949034737481229665, 13476928646679713087, 9954568353990908935));
  }

  lemma Above64Begin()
    ensures XxHash64.XXH64.begin(XxHash64.Acc(16471395030170033817, 12949034737481229665, 13476928646679713087,
                                              9954568353990908935), 0x9E37_79B1, 45) == 8248901849941349596
  {
    Length64(45, 45);
    assert XxHash64.Rotl1(16471395030170033817) + XxHash64.Rotl7(12949034737481229665)
           + XxHash64.Rotl12(13476928646679713087)
           + XxHash64.Rotl18(9954568353990908935) == 769939356316832338;
    assert XxHash64.MergeLane(769939356316832338, 16471395030170033817) == 12652904323559703751;
    assert XxHash64.MergeLane(12652904323559703751, 12949034737481229665) == 47848032071192033;
    assert XxHash64.MergeLane(47848032071192033, 13476928646679713087) == 2588880972227561174;
    assert XxHash64.MergeLane(2588880972227561174, 9954568353990908935) == 8248901849941349551;
  }

  const W4: seq<bv8> := [32, 33, 34, 35, 36, 37, 38, 39]
  const R4: seq<bv8> := [40, 41, 42, 43, 44]

  lemma Above64Word()
    ensures XxHash64.Word(8248901849941349596, W4) == 14967332903336914951
  {
    assert XxHash64.Read4(W4, 0) == 0x23222120 && XxHash64.Read4(W4, 4) == 0x27262524;
    assert XxHash64.Read(W4, 0) == 0x2726252423222120;
  }

  lemma Above64Small()
    ensures XxHash64.Small(14967332903336914951, R4) == 3581832341126034258
  {
    assert XxHash64.Read4(R4, 0) == 0x2B2A2928;
    assert XxHash64.Half(14967332903336914951, 0x2B2A2928) == 5426381824412217897;
    assert R4[4..] == [44];
    assert XxHash64.Bytes(5426381824412217897, [44]) == 3581832341126034258;
  }

  lemma Above64Mix()
    ensures XxHash64.Avalanche(3581832341126034258) == 2654748132448928519
  {}

  /** The bytes 0 to 44 with a seed. */
  lemma Above64()
    ensures Hash(XxHash64.XXH64, 0x9E37_79B1, STRIPE64 + W4 + R4) == 0x24D78F5C6AC00307
  {
    Above64Round();
    Above64Begin();
    Above64Word();
    Above64Small();
    Above64Mix();
    OneOfEach(XxHash64.XXH64, 0x9E37_79B1, STRIPE64, W4, R4,
              XxHash64.Acc(16471395030170033817, 12949034737481229665, 13476928646679713087, 9954568353990908935),
              8248901849941349596, 14967332903336914951, 3581832341126034258, 2654748132448928519);
  }
}
