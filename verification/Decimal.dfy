/** Decimal conversion as in src/Common.cpp: itoa into a buffer, atous, atoui and atoull out of one. */
module Decimal {
  import opened Sealing

  const MAX_ULL := 0x1_0000_0000_0000_0000

  function Digit(d: nat): char
    requires d < 10
  {
    ('0' as int + d) as char
  }

  /** A byte is a signed char in the source. */
  function ValueOf(c: char): int { (if c as int < 128 then c as int else c as int - 256) - '0' as int }

  function Pow10(n: nat): (r: nat)
    ensures r > 0
  {
    if n == 0 then 1 else 10 * Pow10(n - 1)
  }

  /** The digits of v. */
  function Text(v: nat): string {
    if v < 10 then [Digit(v)] else Text(v / 10) + [Digit(v % 10)]
  }

  /** The number a digit string stands for; other characters count by their distance from '0'. */
  function Number(s: string): int {
    if s == [] then 0 else 10 * Number(s[..|s| - 1]) + ValueOf(s[|s| - 1])
  }

  ghost predicate AllDigits(s: string) {
    forall i {:trigger s[i]} :: 0 <= i < |s| ==> '0' <= s[i] <= '9'
  }

  /** No byte counts less than zero: digits, letters and the other characters from '0' on. */
  ghost predicate NoneBelow(s: string) {
    forall i {:trigger s[i]} :: 0 <= i < |s| ==> ValueOf(s[i]) >= 0
  }

  lemma {:induction false} NumberText(v: nat)
    ensures Number(Text(v)) == v && AllDigits(Text(v)) && |Text(v)| >= 1
  {
    if v >= 10 {
      NumberText(v / 10);
      assert Text(v)[..|Text(v)| - 1] == Text(v / 10);
    } else {
      assert Text(v)[..0] == [];
    }
  }

  lemma {:induction false} TextLength(v: nat, k: nat)
    requires k >= 1 && v < Pow10(k)
    ensures |Text(v)| <= k
  {
    if v >= 10 {
      assert k >= 2 by { assert Pow10(1) == 10 by { assert Pow10(0) == 1; } }
      TextLength(v / 10, k - 1);
    }
  }

  lemma Powers()
    ensures Pow10(5) == 100000 && Pow10(10) == 10000000000 && Pow10(20) == 100000000000000000000
  {
    assert Pow10(5) == 100000 by { assert Pow10(2) == 100; }
    assert Pow10(8) == 100000000 && Pow10(10) == 10000000000;
    assert Pow10(13) == 10000000000000 && Pow10(16) == 10000000000000000 && Pow10(19) == 10000000000000000000;
  }

  // ---- itoa ----

  function Reversed(s: string): string {
    if s == [] then [] else Reversed(s[1..]) + [s[0]]
  }

  lemma {:induction false} ReversedAt(s: string, i: nat)
    requires i < |s|
    ensures |Reversed(s)| == |s| && Reversed(s)[i] == s[|s| - 1 - i]
  {
    ReversedSize(s);
    ReversedSize(s[1..]);
    if i < |s| - 1 { ReversedAt(s[1..], i); }
  }

  lemma {:induction false} ReversedSize(s: string)
    ensures |Reversed(s)| == |s|
  {
    if s != [] { ReversedSize(s[1..]); }
  }

  lemma {:induction false} ReversedSnoc(s: string, c: char)
    ensures Reversed(s + [c]) == [c] + Reversed(s)
  {
    if s != [] {
      assert (s + [c])[1..] == s[1..] + [c];
      ReversedSnoc(s[1..], c);
    } else {
      assert ([] + [c])[1..] == [];
      assert s + [c] == [c];
    }
  }

  /** The digits still to come, given what is left of the value. */
  function Ahead(v: nat): string { if v == 0 then [] else Text(v) }

  lemma AheadStep(v: nat, low: string)
    requires v > 0
    ensures Ahead(v / 10) + Reversed(low + [Digit(v % 10)]) == Text(v) + Reversed(low)
  {
    ReversedSnoc(low, Digit(v % 10));
    assert Text(v) == Ahead(v / 10) + [Digit(v % 10)];
  }

  lemma FirstStep(v: nat)
    ensures Ahead(v / 10) + Reversed([Digit(v % 10)]) == Text(v)
  {
    assert Reversed([Digit(v % 10)]) == [Digit(v % 10)] by { assert [Digit(v % 10)][1..] == []; }
  }

  /** Least significant digit first. */
  method WriteDigits(value: nat, str: array<char>) returns (n: nat)
    requires value < MAX_ULL && str.Length > 20
    modifies str
    ensures 1 <= n <= 20 && Reversed(str[..n]) == Text(value)
    ensures forall i :: n <= i < str.Length ==> str[i] == old(str[i])
  {
    Powers();
    TextLength(value, 20);
    n := 0;
    var v: nat := value;
    str[n] := Digit(v % 10);
    n := 1;
    v := v / 10;
    assert str[..1] == [Digit(value % 10)];
    FirstStep(value);
    while v != 0
      invariant 1 <= n <= 20 && v < MAX_ULL && Ahead(v) + Reversed(str[..n]) == Text(value)
      invariant forall i :: n <= i < str.Length ==> str[i] == old(str[i])
      decreases v
    {
      AheadStep(v, str[..n]);
      ReversedSize(str[..n]);
      NumberText(v);
      ghost var low := str[..n];
      str[n] := Digit(v % 10);
      n := n + 1;
      assert str[..n] == low + [Digit(v % 10)];
      v := v / 10;
    }
  }

  /** The in-place reversal. */
  method ReverseInPlace(str: array<char>, n: nat)
    requires n <= str.Length
    modifies str
    ensures str[..n] == Reversed(old(str[..n]))
    ensures forall i :: n <= i < str.Length ==> str[i] == old(str[i])
  {
    ghost var was := str[..n];
    var i := 0;
    while i < n / 2
      invariant 0 <= i <= n / 2
      invariant forall k {:trigger str[k]} :: 0 <= k < n ==>
                  str[k] == if k < i || n - 1 - k < i then was[n - 1 - k] else was[k]
      invariant forall k :: n <= k < str.Length ==> str[k] == old(str[k])
    {
      var tmp := str[i];
      str[i] := str[n - 1 - i];
      str[n - 1 - i] := tmp;
      i := i + 1;
    }
    ReversedSize(was);
    forall k | 0 <= k < n ensures str[k] == Reversed(was)[k] { ReversedAt(was, k); }
  }

  /** itoa writes the digits of any 64-bit value, a space after them, and nothing else. */
  method Itoa(value: nat, str: array<char>) returns (n: nat)
    requires value < MAX_ULL && str.Length > 20
    modifies str
    ensures 1 <= n <= 20 && str[..n] == Text(value) && str[n] == ' '
    ensures forall i :: n < i < str.Length ==> str[i] == old(str[i])
  {
    n := WriteDigits(value, str);
    ghost var digits := str[..n];
    str[n] := ' ';
    assert str[..n] == digits;
    ReverseInPlace(str, n);
  }

  // ---- atous, atoui, atoull ----

  /** The fall-through sum of at most width digits; longer or empty strings give nothing. */
  function Sum(s: string, width: nat): int { if 1 <= |s| <= width then Number(s) else 0 }

  function Atous(s: string): nat { Sum(s, 5) % 0x1_0000 }
  function Atoui(s: string): nat { Sum(s, 10) % 0x1_0000_0000 }
  function Atoull(s: string): nat { Sum(s, 20) % MAX_ULL }

  lemma NumberPrefix(s: string, j: nat)
    requires j < |s|
    ensures Number(s[..j + 1]) == 10 * Number(s[..j]) + ValueOf(s[j])
  {
    assert s[..j + 1][..j] == s[..j];
  }

  lemma Shifted(a: int, v: int, p: int)
    ensures (10 * a + v) * p == a * (10 * p) + v * p
  {}

  lemma ModAdd(x: int, y: int)
    ensures (x % MAX_ULL + y) % MAX_ULL == (x + y) % MAX_ULL
  {}

  lemma SumStep(s: string, k: nat, value: nat)
    requires 0 < k <= |s| && value == (Number(s[..|s| - k]) * Pow10(k)) % MAX_ULL
    ensures (value + ValueOf(s[|s| - k]) * Pow10(k - 1)) % MAX_ULL ==
            (Number(s[..|s| - (k - 1)]) * Pow10(k - 1)) % MAX_ULL
  {
    var j := |s| - k;
    NumberPrefix(s, j);
    var a, v, p := Number(s[..j]), ValueOf(s[j]), Pow10(k - 1);
    Shifted(a, v, p);
    ModAdd(a * (10 * p), v * p);
  }

  /** The sum after the first |s| - k digits, in 64-bit arithmetic. */
  ghost predicate SumSoFar(s: string, k: nat, value: nat) {
    k <= |s| && value == (Number(s[..|s| - k]) * Pow10(k)) % MAX_ULL
  }

  lemma SumEnds(s: string, value: nat)
    ensures SumSoFar(s, |s|, 0)
    ensures SumSoFar(s, 0, value) && 1 <= |s| <= 20 ==> value == Atoull(s)
  {
    assert s[..0] == [] && s[..|s|] == s;
    Times(Number([]), Pow10(|s|));
    Times(Number(s), Pow10(0));
  }

  lemma Times(a: int, b: int)
    ensures a == 0 ==> a * b == 0
    ensures b == 1 ==> a * b == a
    ensures a >= 0 && b >= 0 ==> a * b >= 0
  {}

  /** One case label after the other, in 64-bit arithmetic. */
  method AtoullLoop(s: string) returns (value: nat)
    ensures value == Atoull(s)
  {
    value := 0;
    if 1 <= |s| <= 20 {
      var k: nat := |s|;
      SumEnds(s, value);
      while k > 0
        invariant SumSoFar(s, k, value)
      {
        SumStep(s, k, value);
        value := (value + ValueOf(s[|s| - k]) * Pow10(k - 1)) % MAX_ULL;
        k := k - 1;
      }
      SumEnds(s, value);
    }
  }

  /** No partial sum exceeds the value of the digits, so none of them wraps. */
  lemma {:induction false} PartialSums(s: string, j: nat)
    requires NoneBelow(s) && j <= |s|
    ensures 0 <= Number(s[..j]) * Pow10(|s| - j) <= Number(s)
    decreases |s| - j
  {
    if j == |s| {
      assert s[..j] == s;
      Positive(s);
    } else {
      PartialSums(s, j + 1);
      NumberPrefix(s, j);
      Positive(s[..j]);
      var a, v, p := Number(s[..j]), ValueOf(s[j]), Pow10(|s| - j - 1);
      Shifted(a, v, p);
      Times(v, p);
      Times(a, 10 * p);
    }
  }

  lemma {:induction false} Positive(s: string)
    requires NoneBelow(s)
    ensures Number(s) >= 0
  {
    if s != [] { Positive(s[..|s| - 1]); }
  }

  const MAX_INT := 0x8000_0000

  /** What atoui adds for the digit at j, and the sum before it: both are signed ints in the source. */
  function Term(s: string, j: nat): int
    requires j < |s|
  {
    ValueOf(s[j]) * Pow10(|s| - 1 - j)
  }

  /** No product and no sum of atoui overflows, so its result is defined. */
  ghost predicate AtouiDefined(s: string) {
    forall u {:trigger Look(u)} :: Look(u) ==> NoOverflow(s)
  }

  ghost predicate NoOverflow(s: string) {
    1 <= |s| <= 10 ==>
      forall j {:trigger Term(s, j)} :: 0 <= j < |s| ==>
        && -MAX_INT <= Term(s, j) < MAX_INT
        && -MAX_INT <= Number(s[..j + 1]) * Pow10(|s| - 1 - j) < MAX_INT
  }

  lemma TermBound(s: string, j: nat)
    requires NoneBelow(s) && j < |s|
    ensures 0 <= Term(s, j) <= Number(s[..j + 1]) * Pow10(|s| - 1 - j) <= Number(s)
  {
    PartialSums(s, j + 1);
    NumberPrefix(s, j);
    assert NoneBelow(s[..j]);
    Positive(s[..j]);
    var a, v, p := Number(s[..j]), ValueOf(s[j]), Pow10(|s| - 1 - j);
    Shifted(a, v, p);
    Times(a, 10 * p);
    Times(v, p);
  }

  /** For up to ten digits, letters and the like atoui is defined exactly below 2^31. */
  lemma AtouiDefinedIff(s: string)
    requires NoneBelow(s) && 1 <= |s| <= 10
    ensures AtouiDefined(s) <==> Number(s) < MAX_INT
  {
    forall j | 0 <= j < |s| ensures 0 <= Term(s, j) <= Number(s[..j + 1]) * Pow10(|s| - 1 - j) <= Number(s) {
      TermBound(s, j);
    }
    var j := |s| - 1;
    assert s[..j + 1] == s;
    Times(Number(s), Pow10(0));
    assert Term(s, j) <= Number(s);
    assert Look(0);
  }

  /** Bytes of whatever kind: eight of them stay below 2^31 in size. */
  lemma {:induction false} SmallNumber(s: string)
    requires forall i {:trigger s[i]} :: 0 <= i < |s| ==> -176 <= ValueOf(s[i]) <= 176
    ensures -20 * (Pow10(|s|) - 1) <= Number(s) <= 20 * (Pow10(|s|) - 1)
  {
    if s != [] { SmallNumber(s[..|s| - 1]); }
  }

  lemma SmallTimes(x: int, m: int, p: int)
    requires -m <= x <= m && p >= 0
    ensures -(m * p) <= x * p <= m * p
  {
    assert (m - x) * p >= 0 && (m + x) * p >= 0;
  }

  lemma {:induction false} PowAdd(a: nat, b: nat)
    ensures Pow10(a) * Pow10(b) == Pow10(a + b)
  {
    if a > 0 { PowAdd(a - 1, b); }
  }

  lemma {:induction false} PowUp(a: nat, b: nat)
    requires a <= b
    ensures Pow10(a) <= Pow10(b)
  {
    if a < b { PowUp(a, b - 1); }
  }

  /** A partial sum of n <= 8 bytes after the first k. */
  lemma SmallSum(s: string, k: nat, n: nat)
    requires |s| == k <= n <= 8 && forall i {:trigger s[i]} :: 0 <= i < |s| ==> s[i] as int < 256
    ensures -2000000000 <= Number(s) * Pow10(n - k) <= 2000000000
  {
    SmallNumber(s);
    SmallTimes(Number(s), 20 * Pow10(k), Pow10(n - k));
    PowAdd(k, n - k);
    Twenty(Pow10(k), Pow10(n - k));
    PowUp(n, 8);
    assert Pow10(8) == 100000000;
  }

  lemma Twenty(a: int, b: int)
    ensures 20 * a * b == 20 * (a * b)
  {}

  /** So atoui is defined on any bytes up to eight of them. */
  lemma ShortDefined(s: string)
    requires |s| <= 8 && forall i {:trigger s[i]} :: 0 <= i < |s| ==> s[i] as int < 256
    ensures AtouiDefined(s)
  {
    forall j | 0 <= j < |s| ensures
      -MAX_INT <= Term(s, j) < MAX_INT && -MAX_INT <= Number(s[..j + 1]) * Pow10(|s| - 1 - j) < MAX_INT
    {
      SmallSum(s[..j + 1], j + 1, |s|);
      SmallTimes(ValueOf(s[j]), 176, Pow10(|s| - 1 - j));
      PowUp(|s| - 1 - j, 7);
      assert Pow10(7) == 10000000;
    }
    assert NoOverflow(s);
  }

  /** Ten digits just too many, and nine letters. */
  lemma AtouiOverflows()
    ensures !AtouiDefined("2147483648") && !AtouiDefined("zzzzzzzzz")
  {
    var s := "2147483648";
    NumberOfTen(s);
    AtouiDefinedIff(s);
    var z := "zzzzzzzzz";
    assert Pow10(8) == 100000000;
    assert Term(z, 0) == 7400000000;
    assert Look(0);
  }

  lemma NumberOfTen(s: string)
    requires s == "2147483648"
    ensures Number(s) == 2147483648
  {
    assert s[..0] == [];
    NumberPrefix(s, 0);
    NumberPrefix(s, 1);
    NumberPrefix(s, 2);
    NumberPrefix(s, 3);
    NumberPrefix(s, 4);
    assert Number(s[..5]) == 21474;
    NumberPrefix(s, 5);
    NumberPrefix(s, 6);
    NumberPrefix(s, 7);
    NumberPrefix(s, 8);
    NumberPrefix(s, 9);
    assert s[..10] == s;
  }

  lemma SumOfText(v: nat, width: nat)
    requires width >= 1 && v < Pow10(width)
    ensures Sum(Text(v), width) == v
  {
    NumberText(v);
    TextLength(v, width);
  }

  /** Written in up to ten digits, a value can be read by atoui exactly if it is below 2^31. */
  lemma AtouiOfText(v: nat)
    requires v < Pow10(10)
    ensures AtouiDefined(Text(v)) <==> v < MAX_INT
  {
    NumberText(v);
    TextLength(v, 10);
    AtouiDefinedIff(Text(v));
  }

  lemma AtoullBack(v: nat)
    requires v < MAX_ULL
    ensures Atoull(Text(v)) == v
  {
    Powers();
    SumOfText(v, 20);
  }

  lemma AtouiBack(v: nat)
    requires v < MAX_INT
    ensures AtouiDefined(Text(v)) && Atoui(Text(v)) == v
  {
    Powers();
    AtouiOfText(v);
    SumOfText(v, 10);
  }

  lemma AtousBack(v: nat)
    requires v < 0x1_0000
    ensures Atous(Text(v)) == v
  {
    Powers();
    SumOfText(v, 5);
  }

  /** Whatever 64-bit value is written can be read back; so can 16-bit values by atous and, as far
      as its signed arithmetic is defined, values by atoui. */
  lemma RoundTrip(v: nat)
    ensures v < MAX_ULL ==> Atoull(Text(v)) == v
    ensures v < MAX_INT ==> AtouiDefined(Text(v)) && Atoui(Text(v)) == v
    ensures v < 0x1_0000 ==> Atous(Text(v)) == v
  {
    if v < MAX_ULL { AtoullBack(v); }
    if v < MAX_INT { AtouiBack(v); }
    if v < 0x1_0000 { AtousBack(v); }
  }

  /** The whole way: write a value, read back the digits written. */
  method WriteAndRead(value: nat) returns (back: nat)
    requires value < MAX_ULL
    ensures back == value
  {
    var str := new char[21];
    var n := Itoa(value, str);
    RoundTrip(value);
    back := AtoullLoop(str[..n]);
  }
}
