/**
 The size and capacity words of the 24-byte string of src/string.hpp.  The last byte of the
 layout is the top byte of the capacity for long strings and the size byte for short ones; its
 two lowest bits tell which.
 */
module SsoLayout {

  const CAPACITY := 23  // sso_capacity

  /** A size_t by its most significant byte and the rest. */
  datatype Wide = Wide(top: bv8, rest: nat)

  const REST := 0x100_0000_0000_0000

  ghost predicate IsWide(w: Wide) { w.rest < REST }

  /** A byte as a number, bit by bit. */
  function NatOf(b: bv8): (n: nat)
    ensures n < 256
  {
    Sum(b & 0x80 != 0, b & 0x40 != 0, b & 0x20 != 0, b & 0x10 != 0,
        b & 0x08 != 0, b & 0x04 != 0, b & 0x02 != 0, b & 0x01 != 0)
  }

  /** The number with these binary digits, most significant first, and the byte with these bits. */
  function Sum(a: bool, b: bool, c: bool, d: bool, e: bool, f: bool, g: bool, h: bool): (n: nat)
    ensures n < 256
  {
    (if a then 128 else 0) + (if b then 64 else 0) + (if c then 32 else 0) + (if d then 16 else 0) +
    (if e then 8 else 0) + (if f then 4 else 0) + (if g then 2 else 0) + (if h then 1 else 0)
  }

  function Bits(a: bool, b: bool, c: bool, d: bool, e: bool, f: bool, g: bool, h: bool): bv8 {
    (if a then 0x80 else 0) | (if b then 0x40 else 0) | (if c then 0x20 else 0) | (if d then 0x10 else 0) |
    (if e then 0x08 else 0) | (if f then 0x04 else 0) | (if g then 0x02 else 0) | (if h then 0x01 else 0)
  }

  /** n without its bit of weight k. */
  function Less(n: int, k: int): int { if n >= k then n - k else n }

  function ByteOf(n: nat): bv8
    requires n < 256
  {
    var n1 := Less(n, 128);
    var n2 := Less(n1, 64);
    var n3 := Less(n2, 32);
    var n4 := Less(n3, 16);
    var n5 := Less(n4, 8);
    var n6 := Less(n5, 4);
    var n7 := Less(n6, 2);
    Bits(n >= 128, n1 >= 64, n2 >= 32, n3 >= 16, n4 >= 8, n5 >= 4, n6 >= 2, n7 >= 1)
  }

  lemma Assembled(a: bool, b: bool, c: bool, d: bool, e: bool, f: bool, g: bool, h: bool)
    ensures var w := Bits(a, b, c, d, e, f, g, h);
            && (w & 0x80 != 0 <==> a) && (w & 0x40 != 0 <==> b) && (w & 0x20 != 0 <==> c) && (w & 0x10 != 0 <==> d)
            && (w & 0x08 != 0 <==> e) && (w & 0x04 != 0 <==> f) && (w & 0x02 != 0 <==> g) && (w & 0x01 != 0 <==> h)
  {}

  lemma BitsSum(a: bool, b: bool, c: bool, d: bool, e: bool, f: bool, g: bool, h: bool)
    ensures NatOf(Bits(a, b, c, d, e, f, g, h)) == Sum(a, b, c, d, e, f, g, h)
  {
    Assembled(a, b, c, d, e, f, g, h);
  }

  /** The digit of weight k of a number less than twice k, which leaves less than k. */
  lemma Digit(n: int, k: int, rest: int) returns (b: bool)
    requires 0 <= n < 2 * k && rest == Less(n, k)
    ensures b == (n >= k) && 0 <= rest < k && n == rest + if b then k else 0
  {
    b := n >= k;
  }

  /** The binary digits of n, and what they add up to. */
  lemma Digits(n: nat, n1: int, n2: int, n3: int, n4: int, n5: int, n6: int, n7: int)
    requires n < 256 && n1 == Less(n, 128) && n2 == Less(n1, 64) && n3 == Less(n2, 32) && n4 == Less(n3, 16)
    requires n5 == Less(n4, 8) && n6 == Less(n5, 4) && n7 == Less(n6, 2)
    ensures Sum(n >= 128, n1 >= 64, n2 >= 32, n3 >= 16, n4 >= 8, n5 >= 4, n6 >= 2, n7 >= 1) == n
  {
    var a := Digit(n, 128, n1);
    var b := Digit(n1, 64, n2);
    var c := Digit(n2, 32, n3);
    var d := Digit(n3, 16, n4);
    var e := Digit(n4, 8, n5);
    var f := Digit(n5, 4, n6);
    var g := Digit(n6, 2, n7);
    AddUp(n, n1, n2, n3, n4, n5, n6, n7, a, b, c, d, e, f, g, n7 >= 1);
  }

  lemma AddUp(n: int, n1: int, n2: int, n3: int, n4: int, n5: int, n6: int, n7: int,
              a: bool, b: bool, c: bool, d: bool, e: bool, f: bool, g: bool, h: bool)
    requires n == n1 + (if a then 128 else 0) && n1 == n2 + (if b then 64 else 0) && n2 == n3 + (if c then 32 else 0)
    requires n3 == n4 + (if d then 16 else 0) && n4 == n5 + (if e then 8 else 0) && n5 == n6 + (if f then 4 else 0)
    requires n6 == n7 + (if g then 2 else 0) && n7 == (if h then 1 else 0)
    ensures Sum(a, b, c, d, e, f, g, h) == n
  {}

  lemma ByteBack(n: nat)
    requires n < 256
    ensures NatOf(ByteOf(n)) == n
  {
    var n1 := Less(n, 128);
    var n2 := Less(n1, 64);
    var n3 := Less(n2, 32);
    var n4 := Less(n3, 16);
    var n5 := Less(n4, 8);
    var n6 := Less(n5, 4);
    var n7 := Less(n6, 2);
    Digits(n, n1, n2, n3, n4, n5, n6, n7);
    BitsSum(n >= 128, n1 >= 64, n2 >= 32, n3 >= 16, n4 >= 8, n5 >= 4, n6 >= 2, n7 >= 1);
  }

  function ToNat(w: Wide): nat { NatOf(w.top) * REST + w.rest }

  function FromNat(n: nat): Wide
    requires n < 256 * REST
  {
    Wide(ByteOf(n / REST), n % REST)
  }

  lemma WideBack(n: nat)
    requires n < 256 * REST
    ensures IsWide(FromNat(n)) && ToNat(FromNat(n)) == n
  {
    ByteBack(n / REST);
  }

  // ---- bits of a byte ----

  function Bit7(b: bv8): bool { b & 0x80 != 0 }
  function Bit6(b: bv8): bool { b & 0x40 != 0 }
  function Bit1(b: bv8): bool { b & 0x02 != 0 }
  function Bit0(b: bv8): bool { b & 0x01 != 0 }

  function Put7(b: bv8, on: bool): bv8 { if on then b | 0x80 else b & 0x7F }
  function Put6(b: bv8, on: bool): bv8 { if on then b | 0x40 else b & 0xBF }
  function Put1(b: bv8, on: bool): bv8 { if on then b | 0x02 else b & 0xFD }
  function Put0(b: bv8, on: bool): bv8 { if on then b | 0x01 else b & 0xFE }

  // ---- packing ----

  /** Neither of the two lowest bits of the last byte is set: a short string. */
  function Short(last: bv8): bool { !Bit0(last) && !Bit1(last) }

  /** The top bytes set_non_sso_data stores for size and capacity. */
  function PackSize(size: bv8, cap: bv8): bv8 { Put7(size, Bit6(cap)) }
  function PackCap(size: bv8, cap: bv8): bv8 { Put1(Put0(cap << 2, Bit7(cap)), !Bit7(size)) }

  /** The top bytes read_non_sso_data recovers. */
  function UnpackSize(size: bv8, cap: bv8): bv8 { Put7(size, !Bit1(cap)) }
  function UnpackCap(size: bv8, cap: bv8): bv8 { Put6(Put7(cap >> 2, Bit0(cap)), Bit7(size)) }

  /** Both words come back, whatever they were. */
  lemma PackRoundTrip(size: bv8, cap: bv8)
    ensures UnpackSize(PackSize(size, cap), PackCap(size, cap)) == size
    ensures UnpackCap(PackSize(size, cap), PackCap(size, cap)) == cap
  {}

  /** The packed form is mistaken for a short string exactly when the size has its highest bit set
      and the capacity does not. */
  lemma MistakenIff(size: bv8, cap: bv8)
    ensures Short(PackCap(size, cap)) <==> Bit7(size) && !Bit7(cap)
  {}

  lemma TopBit(b: bv8)
    ensures Bit7(b) <==> NatOf(b) >= 128
  {}

  /** So it never is when the capacity is at least the size. */
  lemma NeverMistaken(size: Wide, cap: Wide)
    requires IsWide(size) && IsWide(cap) && ToNat(cap) >= ToNat(size)
    ensures !Short(PackCap(size.top, cap.top))
  {
    MistakenIff(size.top, cap.top);
    TopBit(size.top);
    TopBit(cap.top);
  }

  // ---- short sizes ----

  /** set_sso_size. */
  function ShortByte(size: bv8): bv8 { (23 - size) << 2 }

  /** sso_size. */
  function ShortSize(last: bv8): bv8 { 23 - ((last >> 2) & 63) }

  /** A short size is marked as such and comes back; at the full 23 bytes the byte itself is the
      terminating NUL. */
  lemma ShortRoundTrip(size: bv8)
    requires size <= 23
    ensures Short(ShortByte(size)) && ShortSize(ShortByte(size)) == size
    ensures ShortByte(size) == 0 <==> size == 23
  {}

  lemma FewBits(b: bv8)
    ensures NatOf(b) <= 23 <==> b <= 23
    ensures NatOf(b) == 23 <==> b == 23
    ensures NatOf(b) == 0 <==> b == 0
  {}

  /** The size byte for n characters, read back as a number. */
  lemma ShortBack(n: nat)
    requires n <= CAPACITY
    ensures var last := ShortByte(ByteOf(n));
            Short(last) && NatOf(ShortSize(last)) == n && (last == 0 <==> n == CAPACITY)
  {
    ByteBack(n);
    FewBits(ByteOf(n));
    ShortRoundTrip(ByteOf(n));
  }
}
