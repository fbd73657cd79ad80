/** What the compiled matcher answers: for keywords, for other inputs, and where it goes wrong. */
module MatcherTheorems {
  import opened Matcher
  import opened Sealing

  // ---- the tree finds every keyword ----

  /** The input agrees with e wherever candidates differ. */
  ghost predicate Follows(ms: seq<Entry>, size: nat, e: Entry, input: string)
    requires |input| == size
  {
    forall q {:trigger input[q]} :: 0 <= q < size && |Chars(ms, q)| >= 2 ==> input[q] == At(e, q)
  }

  lemma {:induction false} UniqFew(cs: seq<char>, c: char)
    requires forall i :: 0 <= i < |cs| ==> cs[i] == c
    ensures |Uniq(cs)| <= 1 && (cs != [] ==> Uniq(cs) == [c])
  {
    if cs != [] { UniqFew(cs[..|cs| - 1], c); }
  }

  lemma MaskedSame(ms: seq<Entry>, p: nat, c: char, size: nat)
    requires Good(ms, size) && p < size
    ensures |Chars(Masked(Group(ms, p, c), p), p)| <= 1
  {
    var g := Group(ms, p, c);
    var m := Masked(g, p);
    GroupMembers(ms, p, c);
    forall i | 0 <= i < |m| ensures Column(m, p)[i] == '0' {
      assert g[i] in g;
      var k :| 0 <= k < |ms| && ms[k] == g[i];
    }
    UniqFew(Column(m, p), '0');
  }

  lemma TwoIn(cs: seq<char>, a: char, b: char)
    requires a in cs && b in cs && a != b
    ensures |cs| >= 2
  {}

  /** Where candidates of a blanked group differ, the whole set does, and it is not position p. */
  lemma MaskedVaries(ms: seq<Entry>, p: nat, c: char, q: nat, size: nat)
    requires Good(ms, size) && p < size && q < size
    requires |Chars(Masked(Group(ms, p, c), p), q)| >= 2
    ensures q != p && |Chars(ms, q)| >= 2
  {
    MaskedSame(ms, p, c, size);
    var m := Masked(Group(ms, p, c), p);
    var u := Chars(m, q);
    UniqIs(Column(m, q));
    Carried(ms, p, c, q, u[0]);
    Carried(ms, p, c, q, u[1]);
    TwoIn(Chars(ms, q), u[0], u[1]);
  }

  lemma Carried(ms: seq<Entry>, p: nat, c: char, q: nat, d: char)
    requires q != p && d in Chars(Masked(Group(ms, p, c), p), q)
    ensures d in Chars(ms, q)
  {
    var g := Group(ms, p, c);
    var m := Masked(g, p);
    GroupMembers(ms, p, c);
    CharsIs(m, q, d);
    var i :| 0 <= i < |m| && At(m[i], q) == d;
    assert g[i] in g;
    var k :| 0 <= k < |ms| && ms[k] == g[i];
    assert At(ms[k], q) == d;
    CharsIs(ms, q, d);
  }

  lemma {:induction false} GroupPlace(ms: seq<Entry>, p: int, c: char, e: Entry) returns (i: nat)
    requires e in Group(ms, p, c)
    ensures i < |Group(ms, p, c)| && Group(ms, p, c)[i] == e
  {
    i :| 0 <= i < |Group(ms, p, c)| && Group(ms, p, c)[i] == e;
  }

  lemma FollowsOn(ms: seq<Entry>, size: nat, e: Entry, input: string, p: nat, c: char)
    requires Good(ms, size) && |input| == size && |e.s| == size && Follows(ms, size, e, input) && p < size
    ensures Follows(Masked(Group(ms, p, c), p), size, Blank(e, p), input)
  {
    var m := Masked(Group(ms, p, c), p);
    forall q | 0 <= q < size && |Chars(m, q)| >= 2 ensures input[q] == At(Blank(e, p), q) {
      MaskedVaries(ms, p, c, q, size);
    }
  }

  /** The level of the tree that e is on: its character, its group and its place there. */
  lemma OwnGroup(ms: seq<Entry>, size: nat, e: Entry, input: string) returns (p: nat, d: char, g: seq<Entry>)
    requires Good(ms, size) && |input| == size && e in ms && Follows(ms, size, e, input) && (|ms| == 1 ==> input == e.s)
    ensures p == Best(ms, size) && d == input[p] == At(e, p) && d in Chars(ms, p) && g == Group(ms, p, d)
    ensures Good(g, size) && e in g && |e.s| == size && (|g| == 1 ==> g[0] == e)
    ensures |g| != 1 ==>
              2 <= |g| < |ms| && Good(Masked(g, p), size) && Blank(e, p) in Masked(g, p)
                && Follows(Masked(g, p), size, Blank(e, p), input)
  {
    p := Best(ms, size);
    var j :| 0 <= j < |ms| && ms[j] == e;
    if |ms| >= 2 { BestSeparates(ms, size); }
    d := input[p];
    assert d == At(e, p);
    CharsIs(ms, p, d);
    g := Group(ms, p, d);
    PlaceOf(ms, p, d, e);
    FollowsOn(ms, size, e, input, p, d);
    GroupFacts(ms, size, d);
  }

  lemma PlaceOf(ms: seq<Entry>, p: int, c: char, e: Entry)
    requires e in ms && At(e, p) == c
    ensures var g := Group(ms, p, c);
            e in g && Blank(e, p) in Masked(g, p) && (|g| == 1 ==> g[0] == e)
  {
    GroupMembers(ms, p, c);
    var i := GroupPlace(ms, p, c, e);
    assert Masked(Group(ms, p, c), p)[i] == Blank(e, p);
  }

  /** An input that agrees with candidate e wherever candidates differ leads to e. */
  lemma {:induction false} DecideFinds(ms: seq<Entry>, size: nat, e: Entry, input: string)
    requires Good(ms, size) && |input| == size && e in ms && Follows(ms, size, e, input) && (|ms| == 1 ==> input == e.s)
    ensures Decide(ms, size, input) == Hit(e.idx)
    decreases |ms|
  {
    var p, d, g := OwnGroup(ms, size, e, input);
    if |g| != 1 { DecideFinds(Masked(g, p), size, Blank(e, p), input); }
  }

  // ---- what an accepted input has in common with the keyword ----

  /** The input agrees with e at every position tested on the way to e. */
  ghost predicate Agrees(ms: seq<Entry>, size: nat, e: Entry, input: string)
    requires Good(ms, size) && |input| == size
    decreases |ms|
  {
    var p := Best(ms, size);
    && input[p] == At(e, p) && input[p] in Chars(ms, p)
    && (GroupFacts(ms, size, input[p]);
        var g := Group(ms, p, input[p]);
        |g| != 1 ==> Agrees(Masked(g, p), size, Blank(e, p), input))
  }

  lemma {:induction false} DecideAgrees(ms: seq<Entry>, size: nat, input: string) returns (e: Entry)
    requires Good(ms, size) && |input| == size && Decide(ms, size, input).Hit?
    ensures e in ms && Decide(ms, size, input) == Hit(e.idx) && Agrees(ms, size, e, input)
    decreases |ms|
  {
    var p := Best(ms, size);
    var c := input[p];
    GroupFacts(ms, size, c);
    GroupMembers(ms, p, c);
    var g := Group(ms, p, c);
    if |g| == 1 {
      e := g[0];
      assert e in g;
    } else {
      var m := Masked(g, p);
      var f := DecideAgrees(m, size, input);
      var i :| 0 <= i < |m| && m[i] == f;
      e := g[i];
      assert e in g;
    }
  }

  // ---- the list goes wrong exactly when groups are nested deeper ----

  function LastChar(ms: seq<Entry>, p: int): char
    requires Chars(ms, p) != []
  {
    Chars(ms, p)[|Chars(ms, p)| - 1]
  }

  lemma HasChars(ms: seq<Entry>, size: nat)
    requires Good(ms, size)
    ensures Chars(ms, Best(ms, size)) != [] && LastChar(ms, Best(ms, size)) in Chars(ms, Best(ms, size))
  {
    CharsIs(ms, Best(ms, size), At(ms[0], Best(ms, size)));
  }

  /** The input has the last character at every position tested on the last way down. */
  ghost predicate LastWay(ms: seq<Entry>, size: nat, input: string)
    requires Good(ms, size) && |input| == size
    decreases |ms|
  {
    HasChars(ms, size);
    var p := Best(ms, size);
    var c := LastChar(ms, p);
    && input[p] == c
    && (GroupFacts(ms, size, c);
        var g := Group(ms, p, c);
        |g| != 1 ==> LastWay(Masked(g, p), size, input))
  }

  /** `LastWay`, unfolded only where `LuredIs` calls for it. */
  ghost predicate Lured(ms: seq<Entry>, size: nat, input: string) {
    forall u {:trigger Look(u)} :: Look(u) ==> Good(ms, size) && |input| == size && LastWay(ms, size, input)
  }

  lemma LuredIs(ms: seq<Entry>, size: nat, input: string)
    ensures Lured(ms, size, input) <==> Good(ms, size) && |input| == size && LastWay(ms, size, input)
  {
    assert Look(0);
  }

  /** Such an input is accepted from wherever in the list the walk starts. */
  lemma {:induction false} AcceptedFrom(ms: seq<Entry>, size: nat, input: string, j: nat)
    requires Good(ms, size) && |input| == size && Lured(ms, size, input) && j < |Compiled(ms, size)|
    ensures Walk(Compiled(ms, size), input, j).Hit?
    decreases |ms|, 2, 0
  {
    HasChars(ms, size);
    SpotsAccept(ms, size, Chars(ms, Best(ms, size)), input, j);
  }

  lemma {:induction false} SpotsAccept(ms: seq<Entry>, size: nat, cs: seq<char>, input: string, j: nat)
    requires Good(ms, size) && |input| == size && Lured(ms, size, input)
    requires (forall c :: c in cs ==> c in Chars(ms, Best(ms, size))) && j < |Spots(ms, size, cs)|
    requires cs != [] && Chars(ms, Best(ms, size)) != [] && cs[|cs| - 1] == LastChar(ms, Best(ms, size))
    ensures Walk(Spots(ms, size, cs), input, j).Hit?
    decreases |ms|, 1, |cs|
  {
    var one, tail, rest := SpotsCons(ms, size, cs);
    if j >= |one| {
      SpotsAccept(ms, size, tail, input, j - |one|);
    } else if tail == [] {
      OneAccepts(ms, size, cs[0], input, j);
    } else {
      SpotsNonEmpty(ms, size, tail);
      SpotsAccept(ms, size, tail, input, 0);
    }
    JoinAccepts(one, rest, input, j);
  }

  lemma SpotsCons(ms: seq<Entry>, size: nat, cs: seq<char>) returns (one: seq<Spot>, tail: seq<char>, rest: seq<Spot>)
    requires Good(ms, size) && (forall c :: c in cs ==> c in Chars(ms, Best(ms, size))) && cs != []
    ensures cs[0] in Chars(ms, Best(ms, size)) && one == One(ms, size, cs[0]) && SkipsFit(one)
    ensures tail == cs[1..] && (forall c :: c in tail ==> c in Chars(ms, Best(ms, size)))
    ensures rest == Spots(ms, size, tail) && Spots(ms, size, cs) == one + rest
    ensures tail != [] ==> tail[|tail| - 1] == cs[|cs| - 1]
    ensures tail == [] ==> rest == [] && cs[0] == cs[|cs| - 1]
  {
    assert cs == [cs[0]] + cs[1..];
    one, tail := One(ms, size, cs[0]), cs[1..];
    rest := Spots(ms, size, tail);
    OneFits(ms, size, cs[0]);
  }

  lemma JoinAccepts(a: seq<Spot>, b: seq<Spot>, input: string, j: nat)
    requires SkipsFit(a)
    requires if j >= |a| then Walk(b, input, j - |a|).Hit? else Walk(a, input, j).Hit? || Walk(b, input, 0).Hit?
    ensures Walk(a + b, input, j).Hit?
  {
    if j >= |a| { WalkShift(a, b, input, j - |a|); } else { WalkOn(a, b, input, j); }
  }

  lemma HeadAccepts(s: Spot, b: seq<Spot>, input: string, j: nat)
    requires if j == 0 then s.pos < |input| && input[s.pos] == s.ch && s.idx < 0 && Walk(b, input, 0).Hit?
             else Walk(b, input, j - 1).Hit?
    ensures Walk([s] + b, input, j).Hit?
  {
    WalkShift([s], b, input, if j == 0 then 0 else j - 1);
  }

  lemma SpotsNonEmpty(ms: seq<Entry>, size: nat, cs: seq<char>)
    requires Good(ms, size) && (forall c :: c in cs ==> c in Chars(ms, Best(ms, size))) && cs != []
    ensures |Spots(ms, size, cs)| > 0
  {
    assert cs == [cs[0]] + cs[1..];
    if |Group(ms, Best(ms, size), cs[0])| == 1 {
      OneLeaf(ms, size, cs[0]);
    } else {
      var p, g, sub := OneInner(ms, size, cs[0]);
    }
  }

  lemma LuredOn(ms: seq<Entry>, size: nat, input: string, c: char)
    requires Good(ms, size) && |input| == size && Lured(ms, size, input)
    requires c in Chars(ms, Best(ms, size)) && c == LastChar(ms, Best(ms, size))
    ensures input[Best(ms, size)] == c
    ensures |Group(ms, Best(ms, size), c)| != 1 ==>
              Lured(Masked(Group(ms, Best(ms, size), c), Best(ms, size)), size, input)
  {
    LuredIs(ms, size, input);
    GroupFacts(ms, size, c);
    LuredIs(Masked(Group(ms, Best(ms, size), c), Best(ms, size)), size, input);
  }

  lemma {:induction false} OneAccepts(ms: seq<Entry>, size: nat, c: char, input: string, j: nat)
    requires Good(ms, size) && |input| == size && Lured(ms, size, input)
    requires c in Chars(ms, Best(ms, size)) && c == LastChar(ms, Best(ms, size)) && j < |One(ms, size, c)|
    ensures Walk(One(ms, size, c), input, j).Hit?
    decreases |ms|, 0, 0
  {
    if |Group(ms, Best(ms, size), c)| == 1 {
      LuredOn(ms, size, input, c);
      OneLeaf(ms, size, c);
    } else {
      var p, g, sub := OneInner(ms, size, c);
      LuredOn(ms, size, input, c);
      CompiledFits(sub, size);
      AcceptedFrom(sub, size, input, if j == 0 then 0 else j - 1);
      HeadAccepts(Spot(p, c, -|g|), Compiled(sub, size), input, j);
    }
  }

  /** A position where all candidates agree is never tested among several candidates. */
  lemma {:induction false} WayIgnores(ms: seq<Entry>, size: nat, s: string, t: string, q: nat)
    requires Good(ms, size) && |ms| >= 2 && |s| == |t| == size && q < size && |Chars(ms, q)| <= 1
    requires forall i :: 0 <= i < size && i != q ==> s[i] == t[i]
    requires LastWay(ms, size, s)
    ensures LastWay(ms, size, t)
    decreases |ms|
  {
    BestSeparates(ms, size);
    HasChars(ms, size);
    var p := Best(ms, size);
    var c := LastChar(ms, p);
    GroupFacts(ms, size, c);
    var g := Group(ms, p, c);
    if |g| != 1 {
      var m := Masked(g, p);
      if |Chars(m, q)| >= 2 { MaskedVaries(ms, p, c, q, size); }
      WayIgnores(m, size, s, t, q);
    }
  }

  /** Some candidate's own text is such an input. */
  lemma {:induction false} LastOne(ms: seq<Entry>, size: nat) returns (e: Entry)
    requires Good(ms, size)
    ensures e in ms && |e.s| == size && LastWay(ms, size, e.s)
    decreases |ms|
  {
    HasChars(ms, size);
    var p := Best(ms, size);
    var c := LastChar(ms, p);
    GroupFacts(ms, size, c);
    GroupMembers(ms, p, c);
    var g := Group(ms, p, c);
    if |g| == 1 {
      e := g[0];
      assert e in g;
    } else {
      var m := Masked(g, p);
      var f := LastOne(m, size);
      var i :| 0 <= i < |m| && m[i] == f;
      e := g[i];
      assert e in g;
      MaskedSame(ms, p, c, size);
      WayIgnores(m, size, f.s, e.s, p);
    }
  }

  /** The spots before the misread group either accept the input themselves or are passed. */
  lemma {:induction false} Reaches(ms: seq<Entry>, size: nat, cs: seq<char>, c: char, input: string)
    requires Good(ms, size) && |input| == size && (forall d :: d in cs ==> d in Chars(ms, Best(ms, size))) && c in cs
    requires Walk(One(ms, size, c), input, 0).Hit?
    ensures Walk(Spots(ms, size, cs), input, 0).Hit?
    decreases |cs|
  {
    assert cs == [cs[0]] + cs[1..];
    OneFits(ms, size, cs[0]);
    WalkOn(One(ms, size, cs[0]), Spots(ms, size, cs[1..]), input, 0);
    if c != cs[0] { Reaches(ms, size, cs[1..], c, input); }
  }

  /** If groups are nested deeper, an input with an unused character d at the first tested
      position is accepted although no keyword has it. */
  lemma DeepMisreads(ms: seq<Entry>, size: nat, d: char) returns (input: string)
    requires Good(ms, size) && !Shallow(ms, size) && d !in Chars(ms, Best(ms, size))
    ensures |input| == size && Decide(ms, size, input) == Miss && Walk(Compiled(ms, size), input, 0).Hit?
  {
    var c := DeepChar(ms, size);
    input := LureInput(ms, size, c, d);
    var p, g, sub := OneInner(ms, size, c);
    SkipExactIffFlat(sub, size);
    AcceptedFrom(sub, size, input, |g|);
    SkipInto(Spot(p, c, -|g|), Compiled(sub, size), input);
    Reaches(ms, size, Chars(ms, p), c, input);
  }

  lemma LureInput(ms: seq<Entry>, size: nat, c: char, d: char) returns (input: string)
    requires Good(ms, size) && c in Chars(ms, Best(ms, size)) && |Group(ms, Best(ms, size), c)| != 1
    ensures |input| == size && input[Best(ms, size)] == d
    ensures Lured(Masked(Group(ms, Best(ms, size), c), Best(ms, size)), size, input)
  {
    var p, g, sub := OneInner(ms, size, c);
    var e := LastOne(sub, size);
    input := e.s[p := d];
    MaskedSame(ms, p, c, size);
    WayIgnores(sub, size, e.s, input, p);
    LuredIs(sub, size, input);
  }

  /** A mismatch at an inner spot goes on from where its skip lands. */
  lemma SkipInto(s: Spot, b: seq<Spot>, input: string)
    requires s.idx < 0 && s.pos < |input| && input[s.pos] != s.ch && -s.idx <= |b|
    ensures Walk([s] + b, input, 0) == Walk(b, input, -s.idx)
  {
    WalkShift([s], b, input, -s.idx);
  }

  lemma DeepChar(ms: seq<Entry>, size: nat) returns (c: char)
    requires Good(ms, size) && !Shallow(ms, size)
    ensures c in Chars(ms, Best(ms, size)) && |Group(ms, Best(ms, size), c)| != 1
    ensures var p := Best(ms, size);
            Good(Masked(Group(ms, p, c), p), size) && !Flat(Masked(Group(ms, p, c), p), size)
  {
    var p := Best(ms, size);
    c :| c in Chars(ms, p) && |Group(ms, p, c)| != 1
         && !(Good(Masked(Group(ms, p, c), p), size) && Flat(Masked(Group(ms, p, c), p), size));
    GroupFacts(ms, size, c);
  }

  /** The list decides as the tree does, for all inputs, exactly when groups are nested at most
      one deep; d is any character that no keyword has at the first tested position. */
  lemma WalkIsDecideIffShallow(ms: seq<Entry>, size: nat, d: char)
    requires Good(ms, size) && d !in Chars(ms, Best(ms, size))
    ensures (forall input: string {:trigger Walk(Compiled(ms, size), input, 0)} ::
               |input| == size ==> Walk(Compiled(ms, size), input, 0) == Decide(ms, size, input))
            <==> Shallow(ms, size)
  {
    if Shallow(ms, size) {
      forall input: string | |input| == size ensures Walk(Compiled(ms, size), input, 0) == Decide(ms, size, input) {
        WalkIsDecide(ms, size, input);
      }
    } else {
      var input := DeepMisreads(ms, size, d);
    }
  }
}
