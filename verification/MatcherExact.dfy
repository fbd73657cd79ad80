/** Exactly when a keyword is matched as itself, at any depth of nesting. */
module MatcherExact {
  import opened Matcher
  import opened MatcherTheorems

  // ---- answers are leaves ----

  lemma {:induction false} HitIsLeaf(spots: seq<Spot>, input: string, i: nat)
    ensures Walk(spots, input, i).Hit? ==>
              exists k :: 0 <= k < |spots| && spots[k].idx >= 0 && spots[k].idx == Walk(spots, input, i).idx
    decreases |spots| - i
  {
    if i < |spots| {
      var s := spots[i];
      if s.pos < |input| && input[s.pos] == s.ch {
        if s.idx < 0 { HitIsLeaf(spots, input, i + 1); }
      } else if s.idx < 0 {
        HitIsLeaf(spots, input, i + 1 - s.idx);
      } else {
        HitIsLeaf(spots, input, i + 1);
      }
    }
  }

  lemma {:induction false} LeafIn(spots: seq<Spot>, k: nat)
    requires k < |spots| && spots[k].idx >= 0
    ensures spots[k].idx in Leaves(spots)
  {
    if k > 0 {
      assert spots[1..][k - 1] == spots[k];
      LeafIn(spots[1..], k - 1);
    }
  }

  lemma {:induction false} IndexesFrom(ms: seq<Entry>, v: int)
    ensures v in Indexes(ms) <==> exists e :: e in ms && e.idx == v
  {
    if ms != [] {
      assert ms == [ms[0]] + ms[1..];
      IndexesFrom(ms[1..], v);
    }
  }

  ghost predicate Increasing(ms: seq<Entry>) {
    forall a, b {:trigger ms[a], ms[b]} :: 0 <= a < b < |ms| ==> ms[a].idx < ms[b].idx
  }

  /** Each index belongs to one candidate. */
  ghost predicate OneEach(ms: seq<Entry>) {
    forall a, b {:trigger ms[a], ms[b]} :: 0 <= a < |ms| && 0 <= b < |ms| && ms[a].idx == ms[b].idx ==> a == b
  }

  lemma {:induction false} ThoseMembers(ms: seq<Entry>, p: int, cs: seq<char>, e: Entry)
    ensures e in Those(ms, p, cs) ==> e in ms && At(e, p) in cs
  {
    if ms != [] {
      assert ms == [ms[0]] + ms[1..];
      ThoseMembers(ms[1..], p, cs, e);
    }
  }

  /** A list for characters that e does not have never answers with e. */
  lemma NeverThere(ms: seq<Entry>, size: nat, cs: seq<char>, e: Entry, input: string)
    requires Good(ms, size) && (forall c :: c in cs ==> c in Chars(ms, Best(ms, size)))
    requires (forall i, j :: 0 <= i < j < |cs| ==> cs[i] != cs[j]) && OneEach(ms) && e in ms
    requires At(e, Best(ms, size)) !in cs
    ensures Walk(Spots(ms, size, cs), input, 0) != Hit(e.idx)
  {
    var p, list := Best(ms, size), Spots(ms, size, cs);
    SpotsFit(ms, size, cs);
    HitIsLeaf(list, input, 0);
    if Walk(list, input, 0).Hit? {
      var k :| 0 <= k < |list| && list[k].idx >= 0 && list[k].idx == Walk(list, input, 0).idx;
      LeafIn(list, k);
      IndexesFrom(Those(ms, p, cs), list[k].idx);
      var f :| f in Those(ms, p, cs) && f.idx == list[k].idx;
      ThoseMembers(ms, p, cs, f);
      var a :| 0 <= a < |ms| && ms[a] == e;
      var b :| 0 <= b < |ms| && ms[b] == f;
    }
  }

  // ---- passing a group ----

  /** The spots for a character the input does not have let it pass: there is one candidate, or
      nothing in the group's list behind where the skip lands accepts the input. */
  ghost predicate Passes(ms: seq<Entry>, size: nat, c: char, input: string)
    requires Good(ms, size) && c in Chars(ms, Best(ms, size))
  {
    GroupFacts(ms, size, c);
    var p := Best(ms, size);
    var g := Group(ms, p, c);
    |g| != 1 ==> Walk(Compiled(Masked(g, p), size), input, |g|) == Miss
  }

  /** The characters before d. */
  function UpTo(cs: seq<char>, d: char): seq<char> {
    if cs == [] || cs[0] == d then [] else [cs[0]] + UpTo(cs[1..], d)
  }

  lemma {:induction false} UpToIn(cs: seq<char>, d: char, c: char)
    requires c in UpTo(cs, d)
    ensures c in cs && c != d
  {
    if cs != [] && cs[0] != d && c != cs[0] { UpToIn(cs[1..], d, c); }
  }

  lemma OneOther(ms: seq<Entry>, size: nat, c: char, input: string)
    requires Good(ms, size) && |input| == size && c in Chars(ms, Best(ms, size)) && input[Best(ms, size)] != c
    ensures Walk(One(ms, size, c), input, 0) == Miss <==> Passes(ms, size, c, input)
  {
    if |Group(ms, Best(ms, size), c)| == 1 {
      OneLeaf(ms, size, c);
    } else {
      var p, g, sub := OneInner(ms, size, c);
      CompiledFits(sub, size);
      SkipExactIffFlat(sub, size);
      SkipInto(Spot(p, c, -|g|), Compiled(sub, size), input);
    }
  }

  /** All characters before d let the input pass. */
  ghost predicate AllPass(ms: seq<Entry>, size: nat, cs: seq<char>, input: string)
    requires Good(ms, size) && forall c :: c in cs ==> c in Chars(ms, Best(ms, size))
  {
    forall c {:trigger c in cs} :: c in cs ==> Passes(ms, size, c, input)
  }

  lemma OneMisses(ms: seq<Entry>, size: nat, c: char, e: Entry, input: string)
    requires Good(ms, size) && c in Chars(ms, Best(ms, size)) && OneEach(ms) && e in ms && At(e, Best(ms, size)) != c
    ensures Walk(One(ms, size, c), input, 0) != Hit(e.idx)
  {
    NeverThere(ms, size, [c], e, input);
    assert [c][1..] == [];
    var one := One(ms, size, c);
    assert Spots(ms, size, [c]) == one + [];
    assert one + [] == one;
  }

  /** The walk over the spots of cs answers with e exactly when those before e's character let the
      input pass and those of e's character answer with e. */
  lemma {:induction false} SpotsAnswer(ms: seq<Entry>, size: nat, cs: seq<char>, e: Entry, d: char, input: string)
    requires Good(ms, size) && |input| == size && (forall c :: c in cs ==> c in Chars(ms, Best(ms, size)))
    requires (forall i, j :: 0 <= i < j < |cs| ==> cs[i] != cs[j]) && OneEach(ms) && e in ms
    requires d == At(e, Best(ms, size)) == input[Best(ms, size)] && d in cs
    ensures forall c :: c in UpTo(cs, d) ==> c in Chars(ms, Best(ms, size))
    ensures Walk(Spots(ms, size, cs), input, 0) == Hit(e.idx) <==>
            AllPass(ms, size, UpTo(cs, d), input) && Walk(One(ms, size, d), input, 0) == Hit(e.idx)
    decreases |cs|
  {
    forall c | c in UpTo(cs, d) ensures c in Chars(ms, Best(ms, size)) { UpToIn(cs, d, c); }
    var one, tail, rest := SpotsCons(ms, size, cs);
    WalkOn(one, rest, input, 0);
    if cs[0] == d {
      NeverThere(ms, size, tail, e, input);
    } else {
      OneOther(ms, size, cs[0], input);
      OneMisses(ms, size, cs[0], e, input);
      SpotsAnswer(ms, size, tail, e, d, input);
      assert UpTo(cs, d) == [cs[0]] + UpTo(tail, d);
      AllPassCons(ms, size, cs[0], UpTo(tail, d), input);
    }
  }

  lemma AllPassCons(ms: seq<Entry>, size: nat, c: char, cs: seq<char>, input: string)
    requires Good(ms, size) && c in Chars(ms, Best(ms, size)) && forall d :: d in cs ==> d in Chars(ms, Best(ms, size))
    ensures forall d :: d in [c] + cs ==> d in Chars(ms, Best(ms, size))
    ensures AllPass(ms, size, [c] + cs, input) <==> Passes(ms, size, c, input) && AllPass(ms, size, cs, input)
  {
    var all := [c] + cs;
    assert c in all;
    if AllPass(ms, size, all, input) {
      forall d | d in cs ensures Passes(ms, size, d, input) { assert d in all; }
    }
    if Passes(ms, size, c, input) && AllPass(ms, size, cs, input) {
      forall d | d in all ensures Passes(ms, size, d, input) { assert d == c || d in cs; }
    }
  }

  // ---- reaching a keyword ----

  /** On every level of the tree the groups before the input's own let it pass. */
  ghost predicate Reached(ms: seq<Entry>, size: nat, input: string)
    requires Good(ms, size) && |input| == size
    decreases |ms|
  {
    var p := Best(ms, size);
    var d := input[p];
    && d in Chars(ms, p)
    && (forall c :: c in UpTo(Chars(ms, p), d) ==> c in Chars(ms, p))
    && AllPass(ms, size, UpTo(Chars(ms, p), d), input)
    && (GroupFacts(ms, size, d);
        var g := Group(ms, p, d);
        |g| != 1 ==> Reached(Masked(g, p), size, input))
  }

  lemma OneOwn(ms: seq<Entry>, size: nat, d: char, input: string)
    requires Good(ms, size) && |input| == size && d in Chars(ms, Best(ms, size)) && input[Best(ms, size)] == d
    ensures var p := Best(ms, size);
            var g := Group(ms, p, d);
            && g != [] && (|g| == 1 ==> Walk(One(ms, size, d), input, 0) == Hit(g[0].idx))
            && (|g| != 1 ==>
                Good(Masked(g, p), size)
                && Walk(One(ms, size, d), input, 0) == Walk(Compiled(Masked(g, p), size), input, 0))
  {
    GroupFacts(ms, size, d);
    if |Group(ms, Best(ms, size), d)| == 1 {
      OneLeaf(ms, size, d);
    } else {
      OneOwnInner(ms, size, d, input);
    }
  }

  lemma OneOwnInner(ms: seq<Entry>, size: nat, d: char, input: string)
    requires Good(ms, size) && |input| == size && d in Chars(ms, Best(ms, size)) && input[Best(ms, size)] == d
    requires |Group(ms, Best(ms, size), d)| != 1
    ensures var sub := Masked(Group(ms, Best(ms, size), d), Best(ms, size));
            Good(sub, size) && Walk(One(ms, size, d), input, 0) == Walk(Compiled(sub, size), input, 0)
  {
    var p, g, sub := OneInner(ms, size, d);
    SpotPassed(Spot(p, d, -|g|), Compiled(sub, size), input);
  }

  lemma SpotPassed(s: Spot, list: seq<Spot>, input: string)
    requires s.pos < |input| && input[s.pos] == s.ch && s.idx < 0
    ensures Walk([s] + list, input, 0) == Walk(list, input, 0)
  {
    WalkShift([s], list, input, 0);
  }

  lemma {:induction false} GroupOneEach(ms: seq<Entry>, p: int, c: char)
    requires OneEach(ms)
    ensures OneEach(Group(ms, p, c))
  {
    if ms != [] {
      var r := ms[1..];
      assert forall i :: 0 <= i < |r| ==> r[i] == ms[i + 1];
      GroupOneEach(r, p, c);
      GroupMembers(r, p, c);
      if At(ms[0], p) == c {
        var h := Group(r, p, c);
        forall k | 0 <= k < |h| ensures h[k].idx != ms[0].idx {
          assert h[k] in r;
          var i :| 0 <= i < |r| && r[i] == h[k];
          assert ms[i + 1] == h[k];
        }
        OneEachCons(ms[0], h);
      }
    }
  }

  lemma OneEachCons(e: Entry, h: seq<Entry>)
    requires OneEach(h) && forall k :: 0 <= k < |h| ==> h[k].idx != e.idx
    ensures OneEach([e] + h)
  {
    var g := [e] + h;
    forall a, b | 0 <= a < |g| && 0 <= b < |g| && g[a].idx == g[b].idx ensures a == b {
      assert a > 0 ==> g[a] == h[a - 1];
      assert b > 0 ==> g[b] == h[b - 1];
    }
  }

  lemma MaskedOneEach(ms: seq<Entry>, p: int)
    requires OneEach(ms)
    ensures OneEach(Masked(ms, p))
  {
    var m := Masked(ms, p);
    forall a, b | 0 <= a < |m| && 0 <= b < |m| && m[a].idx == m[b].idx ensures a == b {
      assert ms[a].idx == ms[b].idx;
    }
  }

  lemma IncreasingOneEach(ms: seq<Entry>)
    requires Increasing(ms)
    ensures OneEach(ms)
  {
    forall a, b | 0 <= a < |ms| && 0 <= b < |ms| && ms[a].idx == ms[b].idx ensures a == b {}
  }

  /** An input that agrees with e wherever candidates differ is answered with e exactly when it is
      reached. */
  lemma {:induction false} AnsweredIff(ms: seq<Entry>, size: nat, e: Entry, input: string)
    requires Good(ms, size) && |input| == size && e in ms && Follows(ms, size, e, input) && (|ms| == 1 ==> input == e.s)
    requires OneEach(ms)
    ensures Walk(Compiled(ms, size), input, 0) == Hit(e.idx) <==> Reached(ms, size, input)
    decreases |ms|
  {
    var p, d, g := OwnGroup(ms, size, e, input);
    UniqIs(Column(ms, p));
    SpotsAnswer(ms, size, Chars(ms, p), e, d, input);
    OneOwn(ms, size, d, input);
    if |g| != 1 {
      GroupOneEach(ms, p, d);
      MaskedOneEach(g, p);
      AnsweredIff(Masked(g, p), size, Blank(e, p), input);
    }
  }

  /** A keyword is matched as itself exactly when it is reached. */
  lemma MatchedIff(ms: seq<Entry>, size: nat, e: Entry, input: string)
    requires Good(ms, size) && Increasing(ms) && e in ms && input == e.s && |input| == size
    ensures Walk(Compiled(ms, size), input, 0) == Hit(e.idx) <==> Reached(ms, size, input)
  {
    IncreasingOneEach(ms);
    AnsweredIff(ms, size, e, input);
  }

  // ---- a deep group does no harm in the last place ----

  /** On every level only the last group may be nested deeper. */
  ghost predicate Tidy(ms: seq<Entry>, size: nat)
    requires Good(ms, size)
    decreases |ms|
  {
    var p := Best(ms, size);
    var cs := Chars(ms, p);
    forall i {:trigger cs[i]} :: 0 <= i < |cs| ==>
      assert cs[i] in cs;
      GroupFacts(ms, size, cs[i]);
      var g := Group(ms, p, cs[i]);
      |g| != 1 ==> Tidy(Masked(g, p), size) && (i < |cs| - 1 ==> Flat(Masked(g, p), size))
  }

  lemma {:induction false} UpToEarly(cs: seq<char>, d: char, c: char) returns (i: nat)
    requires c in UpTo(cs, d) && d in cs
    ensures i < |cs| - 1 && cs[i] == c
  {
    assert cs == [cs[0]] + cs[1..];
    if c == cs[0] {
      i := 0;
    } else {
      var k := UpToEarly(cs[1..], d, c);
      i := k + 1;
    }
  }

  lemma FlatPasses(ms: seq<Entry>, size: nat, c: char, input: string)
    requires Good(ms, size) && c in Chars(ms, Best(ms, size))
    requires var p := Best(ms, size);
             var g := Group(ms, p, c);
             |g| != 1 ==> Good(Masked(g, p), size) && Flat(Masked(g, p), size)
    ensures Passes(ms, size, c, input)
  {
    var p := Best(ms, size);
    var g := Group(ms, p, c);
    if |g| != 1 {
      GroupFacts(ms, size, c);
      SkipExactIffFlat(Masked(g, p), size);
    }
  }

  /** Then every keyword is reached. */
  lemma {:induction false} TidyReached(ms: seq<Entry>, size: nat, e: Entry, input: string)
    requires Good(ms, size) && |input| == size && e in ms && Follows(ms, size, e, input) && (|ms| == 1 ==> input == e.s)
    requires Tidy(ms, size)
    ensures Reached(ms, size, input)
    decreases |ms|
  {
    var p, d, g := OwnGroup(ms, size, e, input);
    var cs := Chars(ms, p);
    forall c | c in UpTo(cs, d) ensures c in cs && Passes(ms, size, c, input) {
      UpToIn(cs, d, c);
      var i := UpToEarly(cs, d, c);
      assert cs[i] in cs;
      GroupFacts(ms, size, c);
      FlatPasses(ms, size, c, input);
    }
    if |g| != 1 {
      var i :| 0 <= i < |cs| && cs[i] == d;
      TidyReached(Masked(g, p), size, Blank(e, p), input);
    }
  }
}
