/**
 The keyword matcher of src/FastSubstringMatcher.cpp: keywords of one length are sorted into a
 decision tree on characters, the tree is written out as a flat list of spots, and the list is
 walked with skips.
 */
module Matcher {

  datatype Entry = Entry(idx: nat, s: string)

  /** idx is the keyword matched, or minus the number of entries to skip on a mismatch. */
  datatype Spot = Spot(pos: nat, ch: char, idx: int)

  datatype Answer = Miss | Hit(idx: int)

  // ---- candidates ----

  function At(e: Entry, p: int): char { if 0 <= p < |e.s| then e.s[p] else '0' }

  /** Different characters, in order of first appearance. */
  function Uniq(cs: seq<char>): seq<char> {
    if cs == [] then []
    else
      var r := Uniq(cs[..|cs| - 1]);
      if cs[|cs| - 1] in r then r else r + [cs[|cs| - 1]]
  }

  lemma {:induction false} UniqIs(cs: seq<char>)
    ensures forall c :: c in Uniq(cs) <==> c in cs
    ensures forall i, j :: 0 <= i < j < |Uniq(cs)| ==> Uniq(cs)[i] != Uniq(cs)[j]
    ensures |Uniq(cs)| <= |cs|
  {
    if cs != [] {
      UniqIs(cs[..|cs| - 1]);
      assert cs == cs[..|cs| - 1] + [cs[|cs| - 1]];
    }
  }

  function Column(ms: seq<Entry>, p: int): (r: seq<char>)
    ensures |r| == |ms| && forall i :: 0 <= i < |ms| ==> r[i] == At(ms[i], p)
  {
    seq(|ms|, i requires 0 <= i < |ms| => At(ms[i], p))
  }

  function Chars(ms: seq<Entry>, p: int): seq<char> { Uniq(Column(ms, p)) }

  /** The candidates with character c at p. */
  function Group(ms: seq<Entry>, p: int, c: char): seq<Entry> {
    if ms == [] then []
    else if At(ms[0], p) == c then [ms[0]] + Group(ms[1..], p, c)
    else Group(ms[1..], p, c)
  }

  lemma {:induction false} GroupMembers(ms: seq<Entry>, p: int, c: char)
    ensures forall e :: e in Group(ms, p, c) <==> e in ms && At(e, p) == c
    ensures |Group(ms, p, c)| <= |ms|
  {
    if ms != [] {
      GroupMembers(ms[1..], p, c);
      assert ms == [ms[0]] + ms[1..];
    }
  }

  function Blank(e: Entry, p: int): Entry { if 0 <= p < |e.s| then Entry(e.idx, e.s[p := '0']) else e }

  /** Position p is blanked out: it has been tested. */
  function Masked(ms: seq<Entry>, p: int): (r: seq<Entry>)
    ensures |r| == |ms| && forall i :: 0 <= i < |ms| ==> r[i] == Blank(ms[i], p)
  {
    seq(|ms|, i requires 0 <= i < |ms| => Blank(ms[i], p))
  }

  /** The leftmost position with most different characters among the first n. */
  function Best(ms: seq<Entry>, n: nat): (b: nat)
    requires n > 0
    ensures b < n
  {
    if n == 1 then 0
    else
      var b := Best(ms, n - 1);
      if |Chars(ms, n - 1)| > |Chars(ms, b)| then n - 1 else b
  }

  /** As sorting by varianceGreaterThan would have it. */
  lemma {:induction false} BestIs(ms: seq<Entry>, n: nat, q: nat)
    requires q < n
    ensures |Chars(ms, q)| <= |Chars(ms, Best(ms, n))|
    ensures q < Best(ms, n) ==> |Chars(ms, q)| < |Chars(ms, Best(ms, n))|
  {
    if n > 1 && q < n - 1 { BestIs(ms, n - 1, q); }
  }

  lemma CharsIs(ms: seq<Entry>, p: int, c: char)
    ensures c in Chars(ms, p) <==> exists i :: 0 <= i < |ms| && At(ms[i], p) == c
  {
    UniqIs(Column(ms, p));
    if c in Column(ms, p) {
      var i :| 0 <= i < |ms| && Column(ms, p)[i] == c;
      assert At(ms[i], p) == c;
    }
    if exists i :: 0 <= i < |ms| && At(ms[i], p) == c {
      var i :| 0 <= i < |ms| && At(ms[i], p) == c;
      assert Column(ms, p)[i] == c;
    }
  }

  /** Different candidates of the same positive length. */
  ghost predicate Good(ms: seq<Entry>, size: nat) {
    && ms != [] && size > 0
    && (forall i {:trigger ms[i]} :: 0 <= i < |ms| ==> |ms[i].s| == size)
    && (forall i, j {:trigger ms[i], ms[j]} :: 0 <= i < j < |ms| ==> ms[i].s != ms[j].s)
  }

  // ---- splitting ----

  lemma ConsGood(e: Entry, r: seq<Entry>, size: nat)
    requires (r == [] || Good(r, size)) && |e.s| == size > 0 && forall x :: x in r ==> x.s != e.s
    ensures Good([e] + r, size)
  {
    var g := [e] + r;
    forall i, j | 0 <= i < j < |g| ensures g[i].s != g[j].s {
      assert g[j] == r[j - 1];
      if i > 0 { assert g[i] == r[i - 1]; } else { assert r[j - 1] in r; }
    }
  }

  lemma RestGood(ms: seq<Entry>, size: nat)
    requires Good(ms, size)
    ensures ms[1..] == [] || Good(ms[1..], size)
    ensures forall x :: x in ms[1..] ==> x.s != ms[0].s
  {
    var r := ms[1..];
    assert forall i :: 0 <= i < |r| ==> r[i] == ms[i + 1];
  }

  lemma {:induction false} GroupDistinct(ms: seq<Entry>, p: int, c: char, size: nat)
    requires ms == [] || Good(ms, size)
    ensures Group(ms, p, c) == [] || Good(Group(ms, p, c), size)
  {
    if ms != [] {
      RestGood(ms, size);
      GroupDistinct(ms[1..], p, c, size);
      GroupMembers(ms[1..], p, c);
      if At(ms[0], p) == c { ConsGood(ms[0], Group(ms[1..], p, c), size); }
    }
  }

  /** A group leaves out the candidates with any other character. */
  lemma {:induction false} GroupSmaller(ms: seq<Entry>, p: int, c: char, e: Entry)
    requires e in ms && At(e, p) != c
    ensures |Group(ms, p, c)| < |ms|
  {
    GroupMembers(ms[1..], p, c);
    if ms[0] != e {
      assert e in ms[1..];
      GroupSmaller(ms[1..], p, c, e);
    }
  }

  /** Two different candidates differ somewhere, so the best position separates some. */
  lemma BestSeparates(ms: seq<Entry>, size: nat)
    requires Good(ms, size) && |ms| >= 2
    ensures |Chars(ms, Best(ms, size))| >= 2
  {
    var q := Differ(ms[0].s, ms[1].s);
    CharsIs(ms, q, At(ms[0], q));
    CharsIs(ms, q, At(ms[1], q));
    var u := Chars(ms, q);
    assert At(ms[0], q) in u && At(ms[1], q) in u;
    assert |u| >= 2;
    BestIs(ms, size, q);
  }

  lemma OtherChar(ms: seq<Entry>, p: int, c: char) returns (e: Entry)
    requires |Chars(ms, p)| >= 2
    ensures e in ms && At(e, p) != c
  {
    var u := Chars(ms, p);
    UniqIs(Column(ms, p));
    var d := if u[0] == c then u[1] else u[0];
    assert d in u;
    CharsIs(ms, p, d);
    var i :| 0 <= i < |ms| && At(ms[i], p) == d;
    e := ms[i];
  }

  lemma MaskedGood(ms: seq<Entry>, p: int, c: char, size: nat)
    requires Good(ms, size) && forall e :: e in ms ==> At(e, p) == c
    ensures Good(Masked(ms, p), size)
  {
    var r := Masked(ms, p);
    forall i, j | 0 <= i < j < |r| ensures r[i].s != r[j].s {
      assert ms[i] in ms && ms[j] in ms;
      var q := Differ(ms[i].s, ms[j].s);
      assert r[i].s[q] == ms[i].s[q] && r[j].s[q] == ms[j].s[q];
    }
  }

  lemma Differ(s: string, t: string) returns (q: nat)
    requires |s| == |t| && s != t
    ensures q < |s| && s[q] != t[q]
  {
    q :| q < |s| && s[q] != t[q];
  }

  /** Everything the compiler needs to know about one group. */
  lemma GroupFacts(ms: seq<Entry>, size: nat, c: char)
    requires Good(ms, size) && c in Chars(ms, Best(ms, size))
    ensures var p := Best(ms, size);
            var g := Group(ms, p, c);
            && g != [] && Good(g, size) && Good(Masked(g, p), size)
            && (|g| != 1 ==> |g| < |ms|)
  {
    var p := Best(ms, size);
    CharsIs(ms, p, c);
    GroupMembers(ms, p, c);
    var i :| 0 <= i < |ms| && At(ms[i], p) == c;
    assert ms[i] in Group(ms, p, c);
    GroupDistinct(ms, p, c, size);
    MaskedGood(Group(ms, p, c), p, c, size);
    if |ms| >= 2 {
      BestSeparates(ms, size);
      var e := OtherChar(ms, p, c);
      GroupSmaller(ms, p, c, e);
    }
  }

  // ---- compiling ----

  /** The list for candidates ms: for each character at the best position its spot, followed, if
      several candidates have it, by the list for those with the position blanked out. */
  ghost function Compiled(ms: seq<Entry>, size: nat): seq<Spot>
    requires Good(ms, size)
    decreases |ms|, 2, 0
  {
    Spots(ms, size, Chars(ms, Best(ms, size)))
  }

  ghost function Spots(ms: seq<Entry>, size: nat, cs: seq<char>): seq<Spot>
    requires Good(ms, size) && forall c :: c in cs ==> c in Chars(ms, Best(ms, size))
    decreases |ms|, 1, |cs|
  {
    if cs == [] then []
    else
      assert cs == [cs[0]] + cs[1..];
      One(ms, size, cs[0]) + Spots(ms, size, cs[1..])
  }

  ghost function One(ms: seq<Entry>, size: nat, c: char): seq<Spot>
    requires Good(ms, size) && c in Chars(ms, Best(ms, size))
    decreases |ms|, 0, 0
  {
    GroupFacts(ms, size, c);
    var p := Best(ms, size);
    var g := Group(ms, p, c);
    if |g| == 1 then [Spot(p, c, g[0].idx)] else [Spot(p, c, -|g|)] + Compiled(Masked(g, p), size)
  }

  /** The loop that collects the different characters of a column. */
  method CollectChars(ms: seq<Entry>, j: nat) returns (r: seq<char>)
    ensures r == Chars(ms, j)
  {
    r := [];
    var i := 0;
    ghost var col := Column(ms, j);
    while i < |ms|
      invariant 0 <= i <= |ms| && r == Uniq(col[..i])
    {
      assert col[..i + 1][..i] == col[..i];
      if At(ms[i], j) !in r { r := r + [At(ms[i], j)]; }
      i := i + 1;
    }
    assert col[..i] == col;
  }

  /** The position that comes first when all are sorted by variance, then by place. */
  method ChoosePosition(ms: seq<Entry>, size: nat) returns (p: nat, cs: seq<char>)
    requires size > 0
    ensures p == Best(ms, size) && cs == Chars(ms, p)
  {
    p := 0;
    cs := CollectChars(ms, 0);
    var j := 1;
    while j < size
      invariant 1 <= j <= size && p == Best(ms, j) && cs == Chars(ms, p)
    {
      var ds := CollectChars(ms, j);
      if |ds| > |cs| { p, cs := j, ds; }
      j := j + 1;
    }
  }

  lemma OneLeaf(ms: seq<Entry>, size: nat, c: char)
    requires Good(ms, size) && c in Chars(ms, Best(ms, size)) && |Group(ms, Best(ms, size), c)| == 1
    ensures One(ms, size, c) == [Spot(Best(ms, size), c, Group(ms, Best(ms, size), c)[0].idx)]
  {}

  lemma OneInner(ms: seq<Entry>, size: nat, c: char) returns (p: nat, g: seq<Entry>, sub: seq<Entry>)
    requires Good(ms, size) && c in Chars(ms, Best(ms, size)) && |Group(ms, Best(ms, size), c)| != 1
    ensures p == Best(ms, size) && g == Group(ms, p, c) && sub == Masked(g, p)
    ensures |sub| == |g| && 2 <= |g| < |ms| && Good(g, size) && Good(sub, size)
    ensures One(ms, size, c) == [Spot(p, c, -|g|)] + Compiled(sub, size)
  {
    GroupFacts(ms, size, c);
    p := Best(ms, size);
    g := Group(ms, p, c);
    sub := Masked(g, p);
  }

  /** One turn of the loop in solveMatchers: the spot for character c and what follows it. */
  method SolveChar(ms: seq<Entry>, size: nat, p: nat, c: char, cur: seq<Spot>) returns (out: seq<Spot>)
    requires Good(ms, size) && p == Best(ms, size) && c in Chars(ms, p)
    ensures out == cur + One(ms, size, c)
    decreases |ms|, 0
  {
    var g := Group(ms, p, c);
    if |g| == 1 {
      OneLeaf(ms, size, c);
      out := cur + [Spot(p, c, g[0].idx)];
    } else {
      ghost var p', g', sub := OneInner(ms, size, c);
      Regroup(cur, [Spot(p, c, -|g|)], Compiled(sub, size));
      out := cur + [Spot(p, c, -|g|)];
      out := SolveMatchers(Masked(g, p), size, out);
    }
  }

  lemma Regroup(a: seq<Spot>, b: seq<Spot>, c: seq<Spot>)
    ensures (a + b) + c == a + (b + c)
  {}

  lemma SpotsStep(ms: seq<Entry>, size: nat, cs: seq<char>, k: nat, before: seq<Spot>)
    requires Good(ms, size) && cs == Chars(ms, Best(ms, size)) && k < |cs|
    ensures before + Spots(ms, size, cs[k..]) == (before + One(ms, size, cs[k])) + Spots(ms, size, cs[k + 1..])
  {
    assert cs[k..][1..] == cs[k + 1..];
    Regroup(before, One(ms, size, cs[k]), Spots(ms, size, cs[k + 1..]));
  }

  /** solveMatchers appends the list for ms to cur. */
  method SolveMatchers(ms: seq<Entry>, size: nat, cur: seq<Spot>) returns (out: seq<Spot>)
    requires Good(ms, size)
    ensures out == cur + Compiled(ms, size)
    decreases |ms|, 1
  {
    var p, cs := ChoosePosition(ms, size);
    out := cur;
    var k := 0;
    assert cs[0..] == cs;
    while k < |cs|
      invariant 0 <= k <= |cs|
      invariant out + Spots(ms, size, cs[k..]) == cur + Compiled(ms, size)
    {
      SpotsStep(ms, size, cs, k, out);
      out := SolveChar(ms, size, p, cs[k], out);
      k := k + 1;
    }
  }

  // ---- walking ----

  /** A skip stays within the list. */
  ghost predicate SkipsFit(spots: seq<Spot>) {
    forall i {:trigger spots[i]} :: 0 <= i < |spots| && spots[i].idx < 0 ==> i + 1 - spots[i].idx <= |spots|
  }

  ghost predicate InReach(spots: seq<Spot>, size: nat) {
    forall i {:trigger spots[i]} :: 0 <= i < |spots| ==> spots[i].pos < size
  }

  function Walk(spots: seq<Spot>, input: string, i: nat): Answer
    decreases |spots| - i
  {
    if i >= |spots| then Miss
    else
      var s := spots[i];
      if s.pos < |input| && input[s.pos] == s.ch then
        if s.idx >= 0 then Hit(s.idx) else Walk(spots, input, i + 1)
      else if s.idx < 0 then Walk(spots, input, i + 1 - s.idx)
      else Walk(spots, input, i + 1)
  }

  /** The walker: it reads only spots of the list and characters of the input, and stops at a
      match or exactly at the end. */
  method MatchSpots(spots: seq<Spot>, input: string) returns (r: Answer)
    requires spots != [] && SkipsFit(spots) && InReach(spots, |input|)
    ensures r == Walk(spots, input, 0)
  {
    var i := 0;
    while true
      invariant 0 <= i < |spots| && Walk(spots, input, i) == Walk(spots, input, 0)
      decreases |spots| - i
    {
      var s := spots[i];
      if s.ch == input[s.pos] {
        if s.idx >= 0 { return Hit(s.idx); }
      } else if s.idx < 0 {
        i := i - s.idx;
      }
      i := i + 1;
      if i == |spots| { return Miss; }
    }
  }

  // ---- every list: bounds, and one leaf for each keyword ----

  lemma FitTogether(a: seq<Spot>, b: seq<Spot>, size: nat)
    requires SkipsFit(a) && SkipsFit(b) && InReach(a, size) && InReach(b, size)
    ensures SkipsFit(a + b) && InReach(a + b, size)
  {
    forall i | 0 <= i < |a + b|
      ensures (a + b)[i].pos < size && ((a + b)[i].idx < 0 ==> i + 1 - (a + b)[i].idx <= |a + b|)
    {
      if i < |a| { assert (a + b)[i] == a[i]; } else { assert (a + b)[i] == b[i - |a|]; }
    }
  }

  /** The number of nodes of the decision tree that lead to further tests. */
  ghost function Inner(spots: seq<Spot>): nat {
    if spots == [] then 0 else (if spots[0].idx < 0 then 1 else 0) + Inner(spots[1..])
  }

  ghost function Leaves(spots: seq<Spot>): multiset<int> {
    if spots == [] then multiset{}
    else (if spots[0].idx >= 0 then multiset{spots[0].idx} else multiset{}) + Leaves(spots[1..])
  }

  ghost function Indexes(ms: seq<Entry>): multiset<int> {
    if ms == [] then multiset{} else multiset{ms[0].idx} + Indexes(ms[1..])
  }

  lemma {:induction false} Together(a: seq<Spot>, b: seq<Spot>)
    ensures Inner(a + b) == Inner(a) + Inner(b) && Leaves(a + b) == Leaves(a) + Leaves(b)
  {
    if a == [] {
      assert a + b == b;
    } else {
      assert (a + b)[1..] == a[1..] + b;
      Together(a[1..], b);
    }
  }

  lemma {:induction false} IndexesSize(ms: seq<Entry>)
    ensures |Indexes(ms)| == |ms|
  {
    if ms != [] { IndexesSize(ms[1..]); }
  }

  lemma {:induction false} LeavesSize(spots: seq<Spot>)
    ensures |Leaves(spots)| + Inner(spots) == |spots|
  {
    if spots != [] { LeavesSize(spots[1..]); }
  }

  lemma {:induction false} MaskedIndexes(ms: seq<Entry>, p: int)
    ensures Indexes(Masked(ms, p)) == Indexes(ms)
  {
    if ms != [] {
      assert Masked(ms, p)[1..] == Masked(ms[1..], p);
      MaskedIndexes(ms[1..], p);
    }
  }

  /** The candidates whose character at p is one of cs. */
  ghost function Those(ms: seq<Entry>, p: int, cs: seq<char>): seq<Entry> {
    if ms == [] then []
    else (if At(ms[0], p) in cs then [ms[0]] else []) + Those(ms[1..], p, cs)
  }

  lemma IndexesCons(e: Entry, r: seq<Entry>)
    ensures Indexes([e] + r) == multiset{e.idx} + Indexes(r)
  {
    assert ([e] + r)[1..] == r;
  }

  lemma ThoseCons(ms: seq<Entry>, p: int, cs: seq<char>)
    requires ms != []
    ensures Indexes(Those(ms, p, cs)) ==
            (if At(ms[0], p) in cs then multiset{ms[0].idx} else multiset{}) + Indexes(Those(ms[1..], p, cs))
  {
    IndexesCons(ms[0], Those(ms[1..], p, cs));
    assert [] + Those(ms[1..], p, cs) == Those(ms[1..], p, cs);
  }

  lemma GroupCons(ms: seq<Entry>, p: int, c: char)
    requires ms != []
    ensures Indexes(Group(ms, p, c)) ==
            (if At(ms[0], p) == c then multiset{ms[0].idx} else multiset{}) + Indexes(Group(ms[1..], p, c))
  {
    IndexesCons(ms[0], Group(ms[1..], p, c));
  }

  lemma {:induction false} ThoseSplit(ms: seq<Entry>, p: int, cs: seq<char>)
    requires cs != [] && cs[0] !in cs[1..]
    ensures Indexes(Those(ms, p, cs)) == Indexes(Group(ms, p, cs[0])) + Indexes(Those(ms, p, cs[1..]))
  {
    if ms != [] {
      ThoseSplit(ms[1..], p, cs);
      ThoseCons(ms, p, cs);
      GroupCons(ms, p, cs[0]);
      ThoseCons(ms, p, cs[1..]);
      assert At(ms[0], p) in cs <==> At(ms[0], p) == cs[0] || At(ms[0], p) in cs[1..];
    }
  }

  lemma {:induction false} ThoseAll(ms: seq<Entry>, p: int, cs: seq<char>)
    requires forall e :: e in ms ==> At(e, p) in cs
    ensures Those(ms, p, cs) == ms
  {
    if ms != [] {
      assert ms == [ms[0]] + ms[1..];
      ThoseAll(ms[1..], p, cs);
    }
  }

  lemma {:induction false} ThoseNone(ms: seq<Entry>, p: int)
    ensures Those(ms, p, []) == []
  {
    if ms != [] { ThoseNone(ms[1..], p); }
  }

  /** Every list can be walked safely and has exactly one leaf for each candidate. */
  lemma {:induction false} CompiledFits(ms: seq<Entry>, size: nat)
    requires Good(ms, size)
    ensures var r := Compiled(ms, size);
            SkipsFit(r) && InReach(r, size) && Leaves(r) == Indexes(ms) && r != []
    decreases |ms|, 2, 0
  {
    var p := Best(ms, size);
    var cs := Chars(ms, p);
    UniqIs(Column(ms, p));
    SpotsFit(ms, size, cs);
    forall e | e in ms ensures At(e, p) in cs {
      var i :| 0 <= i < |ms| && ms[i] == e;
      CharsIs(ms, p, At(e, p));
    }
    ThoseAll(ms, p, cs);
    IndexesSize(ms);
    LeavesSize(Compiled(ms, size));
  }

  lemma {:induction false} SpotsFit(ms: seq<Entry>, size: nat, cs: seq<char>)
    requires Good(ms, size) && (forall c :: c in cs ==> c in Chars(ms, Best(ms, size)))
    requires forall i, j :: 0 <= i < j < |cs| ==> cs[i] != cs[j]
    ensures var r := Spots(ms, size, cs);
            SkipsFit(r) && InReach(r, size) && Leaves(r) == Indexes(Those(ms, Best(ms, size), cs))
    decreases |ms|, 1, |cs|
  {
    if cs == [] {
      ThoseNone(ms, Best(ms, size));
    } else {
      assert cs == [cs[0]] + cs[1..];
      OneFits(ms, size, cs[0]);
      SpotsFit(ms, size, cs[1..]);
      var one, rest := One(ms, size, cs[0]), Spots(ms, size, cs[1..]);
      assert Spots(ms, size, cs) == one + rest;
      FitTogether(one, rest, size);
      Together(one, rest);
      ThoseSplit(ms, Best(ms, size), cs);
    }
  }

  lemma {:induction false} OneFits(ms: seq<Entry>, size: nat, c: char)
    requires Good(ms, size) && c in Chars(ms, Best(ms, size))
    ensures var r := One(ms, size, c);
            SkipsFit(r) && InReach(r, size) && Leaves(r) == Indexes(Group(ms, Best(ms, size), c))
    decreases |ms|, 0, 0
  {
    GroupFacts(ms, size, c);
    var p := Best(ms, size);
    var g := Group(ms, p, c);
    if |g| == 1 {
      assert Indexes(g) == multiset{g[0].idx};
    } else {
      var sub := Compiled(Masked(g, p), size);
      CompiledFits(Masked(g, p), size);
      MaskedIndexes(g, p);
      IndexesSize(g);
      LeavesSize(sub);
      InnerFits(Spot(p, c, -|g|), sub, size);
    }
  }

  /** A spot that skips no more than the spots behind it. */
  lemma InnerFits(s: Spot, sub: seq<Spot>, size: nat)
    requires SkipsFit(sub) && InReach(sub, size) && s.idx < 0 && -s.idx <= |sub| && s.pos < size
    ensures var r := [s] + sub; SkipsFit(r) && InReach(r, size) && Leaves(r) == Leaves(sub)
  {
    var r := [s] + sub;
    assert r[1..] == sub;
    forall i | 0 <= i < |r| ensures r[i].pos < size && (r[i].idx < 0 ==> i + 1 - r[i].idx <= |r|) {
      if i > 0 { assert r[i] == sub[i - 1]; }
    }
  }

  // ---- skips are exact only for flat groups ----

  /** All candidates differ at one position: no spot leads to further tests. */
  ghost predicate Flat(ms: seq<Entry>, size: nat)
    requires Good(ms, size)
  {
    Inner(Compiled(ms, size)) == 0
  }

  /** The list for ms is longer than ms by its inner spots, so a skip by the number of candidates
      lands just behind their list exactly when that list is flat. */
  lemma SkipExactIffFlat(ms: seq<Entry>, size: nat)
    requires Good(ms, size)
    ensures |Compiled(ms, size)| == |ms| + Inner(Compiled(ms, size))
    ensures |Compiled(ms, size)| == |ms| <==> Flat(ms, size)
  {
    CompiledFits(ms, size);
    IndexesSize(ms);
    LeavesSize(Compiled(ms, size));
  }

  /** Groups are nested at most one deep: two tested positions are enough for every candidate. */
  ghost predicate Shallow(ms: seq<Entry>, size: nat)
    requires Good(ms, size)
  {
    forall c {:trigger c in Chars(ms, Best(ms, size))} :: c in Chars(ms, Best(ms, size)) ==>
      var p := Best(ms, size);
      var g := Group(ms, p, c);
      |g| != 1 ==> Good(Masked(g, p), size) && Flat(Masked(g, p), size)
  }

  lemma InnerOne(ms: seq<Entry>, size: nat, c: char)
    requires Good(ms, size) && c in Chars(ms, Best(ms, size))
    ensures Inner(One(ms, size, c)) == 0 <==> |Group(ms, Best(ms, size), c)| == 1
  {
    if |Group(ms, Best(ms, size), c)| == 1 {
      OneLeaf(ms, size, c);
    } else {
      var p, g, sub := OneInner(ms, size, c);
    }
  }

  lemma {:induction false} FlatChars(ms: seq<Entry>, size: nat, cs: seq<char>, c: char)
    requires Good(ms, size) && (forall d :: d in cs ==> d in Chars(ms, Best(ms, size))) && c in cs
    requires Inner(Spots(ms, size, cs)) == 0
    ensures |Group(ms, Best(ms, size), c)| == 1
    decreases |cs|
  {
    assert cs == [cs[0]] + cs[1..];
    InnerOne(ms, size, cs[0]);
    Together(One(ms, size, cs[0]), Spots(ms, size, cs[1..]));
    if c != cs[0] { FlatChars(ms, size, cs[1..], c); }
  }

  lemma FlatIsShallow(ms: seq<Entry>, size: nat)
    requires Good(ms, size) && Flat(ms, size)
    ensures Shallow(ms, size)
  {
    forall c | c in Chars(ms, Best(ms, size)) ensures |Group(ms, Best(ms, size), c)| == 1 {
      FlatChars(ms, size, Chars(ms, Best(ms, size)), c);
    }
  }

  // ---- the walk is the decision tree ----

  /** The decision tree itself: look at the best position, go on with the candidates that agree. */
  ghost function Decide(ms: seq<Entry>, size: nat, input: string): Answer
    requires Good(ms, size) && |input| == size
    decreases |ms|
  {
    var p := Best(ms, size);
    var c := input[p];
    if c !in Chars(ms, p) then Miss
    else
      GroupFacts(ms, size, c);
      var g := Group(ms, p, c);
      if |g| == 1 then Hit(g[0].idx) else Decide(Masked(g, p), size, input)
  }

  /** A list that cannot be left but at its end is done before what follows. */
  lemma {:induction false} WalkOn(a: seq<Spot>, b: seq<Spot>, input: string, i: nat)
    requires SkipsFit(a) && i <= |a|
    ensures Walk(a + b, input, i) == if Walk(a, input, i).Hit? then Walk(a, input, i) else Walk(b, input, 0)
    decreases |a| - i
  {
    if i == |a| {
      WalkShift(a, b, input, 0);
    } else {
      assert (a + b)[i] == a[i];
      var s := a[i];
      if s.pos < |input| && input[s.pos] == s.ch {
        if s.idx < 0 { WalkOn(a, b, input, i + 1); }
      } else if s.idx < 0 {
        WalkOn(a, b, input, i + 1 - s.idx);
      } else {
        WalkOn(a, b, input, i + 1);
      }
    }
  }

  lemma {:induction false} WalkShift(a: seq<Spot>, b: seq<Spot>, input: string, j: nat)
    ensures Walk(a + b, input, |a| + j) == Walk(b, input, j)
    decreases |b| - j
  {
    if j < |b| {
      assert (a + b)[|a| + j] == b[j];
      var s := b[j];
      if s.pos < |input| && input[s.pos] == s.ch {
        if s.idx < 0 { WalkShift(a, b, input, j + 1); }
      } else if s.idx < 0 {
        WalkShift(a, b, input, j + 1 - s.idx);
      } else {
        WalkShift(a, b, input, j + 1);
      }
    }
  }

  /** The spots for one character: a miss unless the input has it. */
  lemma WalkOne(ms: seq<Entry>, size: nat, c: char, input: string)
    requires Good(ms, size) && |input| == size && c in Chars(ms, Best(ms, size))
    requires var p := Best(ms, size);
             var g := Group(ms, p, c);
             |g| != 1 ==> Good(Masked(g, p), size) && Flat(Masked(g, p), size)
    ensures var p := Best(ms, size);
            var g := Group(ms, p, c);
            && (|g| == 1 ==> Walk(One(ms, size, c), input, 0) == if input[p] == c then Hit(g[0].idx) else Miss)
            && (|g| != 1 ==> Good(Masked(g, p), size)
                             && Walk(One(ms, size, c), input, 0) == if input[p] == c
                                  then Walk(Compiled(Masked(g, p), size), input, 0) else Miss)
  {
    var p := Best(ms, size);
    if |Group(ms, p, c)| == 1 {
      OneLeaf(ms, size, c);
    } else {
      var q, g, sub := OneInner(ms, size, c);
      SkipExactIffFlat(sub, size);
      WalkShift([Spot(p, c, -|g|)], Compiled(sub, size), input, 0);
      assert Walk(One(ms, size, c), input, |g| + 1) == Miss;
    }
  }

  lemma {:induction false} WalkSpots(ms: seq<Entry>, size: nat, cs: seq<char>, input: string)
    requires Good(ms, size) && |input| == size && Shallow(ms, size)
    requires forall c :: c in cs ==> c in Chars(ms, Best(ms, size))
    requires forall i, j :: 0 <= i < j < |cs| ==> cs[i] != cs[j]
    ensures var c := input[Best(ms, size)];
            Walk(Spots(ms, size, cs), input, 0) == if c in cs then Walk(One(ms, size, c), input, 0) else Miss
    decreases |cs|
  {
    if cs != [] {
      assert cs == [cs[0]] + cs[1..];
      var one, rest := One(ms, size, cs[0]), Spots(ms, size, cs[1..]);
      OneFits(ms, size, cs[0]);
      WalkOn(one, rest, input, 0);
      WalkOne(ms, size, cs[0], input);
      WalkSpots(ms, size, cs[1..], input);
    }
  }

  lemma WalkCompiled(ms: seq<Entry>, size: nat, input: string)
    requires Good(ms, size) && |input| == size && Shallow(ms, size)
    ensures var c := input[Best(ms, size)];
            Walk(Compiled(ms, size), input, 0) == if c in Chars(ms, Best(ms, size))
              then Walk(One(ms, size, c), input, 0) else Miss
  {
    UniqIs(Column(ms, Best(ms, size)));
    WalkSpots(ms, size, Chars(ms, Best(ms, size)), input);
  }

  lemma WalkFlat(ms: seq<Entry>, size: nat, input: string)
    requires Good(ms, size) && |input| == size && Flat(ms, size)
    ensures Walk(Compiled(ms, size), input, 0) == Decide(ms, size, input)
  {
    FlatIsShallow(ms, size);
    WalkCompiled(ms, size, input);
    var p := Best(ms, size);
    if input[p] in Chars(ms, p) {
      FlatChars(ms, size, Chars(ms, p), input[p]);
      WalkOne(ms, size, input[p], input);
    }
  }

  /** With groups nested at most one deep the walk over the flat list decides as the tree does. */
  lemma WalkIsDecide(ms: seq<Entry>, size: nat, input: string)
    requires Good(ms, size) && |input| == size && Shallow(ms, size)
    ensures Walk(Compiled(ms, size), input, 0) == Decide(ms, size, input)
  {
    WalkCompiled(ms, size, input);
    var p := Best(ms, size);
    var c := input[p];
    if c in Chars(ms, p) {
      WalkOne(ms, size, c, input);
      var g := Group(ms, p, c);
      if |g| != 1 { WalkFlat(Masked(g, p), size, input); }
    }
  }
}
