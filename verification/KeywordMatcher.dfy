/** The class FastSubstringMatcher: one list of spots for each keyword length. */
module KeywordMatcher {
  import opened Matcher
  import opened MatcherTheorems
  import opened MatcherExact
  import opened Sealing

  /** The keywords of one length with their places, from place i on. */
  function ClassFrom(keywords: seq<string>, size: nat, i: nat): seq<Entry>
    decreases |keywords| - i
  {
    if i >= |keywords| then []
    else if |keywords[i]| == size then [Entry(i, keywords[i])] + ClassFrom(keywords, size, i + 1)
    else ClassFrom(keywords, size, i + 1)
  }

  function ClassOf(keywords: seq<string>, size: nat): seq<Entry> { ClassFrom(keywords, size, 0) }

  /** Different and not empty: any two equal keywords would never be told apart. */
  ghost predicate Usable(keywords: seq<string>) {
    && (forall i {:trigger keywords[i]} :: 0 <= i < |keywords| ==> 0 < |keywords[i]| < 256)
    && (forall i, j {:trigger keywords[i], keywords[j]} :: 0 <= i < j < |keywords| ==> keywords[i] != keywords[j])
  }

  lemma {:induction false} ClassMembers(keywords: seq<string>, size: nat, i: nat)
    ensures forall e {:trigger e in ClassFrom(keywords, size, i)} :: e in ClassFrom(keywords, size, i) <==>
              i <= e.idx < |keywords| && e.s == keywords[e.idx] && |e.s| == size
    decreases |keywords| - i
  {
    if i < |keywords| { ClassMembers(keywords, size, i + 1); }
  }

  lemma {:induction false} ClassGood(keywords: seq<string>, size: nat, i: nat)
    requires Usable(keywords) && size > 0
    ensures ClassFrom(keywords, size, i) == [] || Good(ClassFrom(keywords, size, i), size)
    decreases |keywords| - i
  {
    if i < |keywords| {
      ClassGood(keywords, size, i + 1);
      ClassMembers(keywords, size, i + 1);
      if |keywords[i]| == size {
        ConsGood(Entry(i, keywords[i]), ClassFrom(keywords, size, i + 1), size);
      }
    }
  }

  ghost predicate Occurs(keywords: seq<string>, size: nat) {
    exists i :: 0 <= i < |keywords| && |keywords[i]| == size
  }

  lemma ClassExists(keywords: seq<string>, size: nat)
    requires Usable(keywords) && Occurs(keywords, size)
    ensures Good(ClassOf(keywords, size), size)
  {
    var i :| 0 <= i < |keywords| && |keywords[i]| == size;
    ClassMembers(keywords, size, 0);
    assert Entry(i, keywords[i]) in ClassOf(keywords, size);
    ClassGood(keywords, size, 0);
  }

  const LISTS := 256  // the size of spotSelectorMatch

  /** An entry of spotSelectorMatch: null, or the list for keywords of that length. */
  datatype List = Empty | Filled(spots: seq<Spot>)

  /** OutOfRange: the lookup reads spotSelectorMatch behind its end. */
  datatype Lookup = OutOfRange | Answered(a: Answer)

  /** The list for keywords of one length. */
  ghost function Wanted(keywords: seq<string>, size: nat): List
    requires Usable(keywords)
  {
    if Occurs(keywords, size) then
      ClassExists(keywords, size);
      Filled(Compiled(ClassOf(keywords, size), size))
    else Empty
  }

  function LookIn(l: List, input: string): Answer { if l.Empty? then Miss else Walk(l.spots, input, 0) }

  /** What the matcher answers for a list of keywords. */
  ghost function Match(keywords: seq<string>, input: string): Lookup
    requires Usable(keywords)
  {
    if |input| >= LISTS then OutOfRange else Answered(LookIn(Wanted(keywords, |input|), input))
  }

  /** A list can be walked on inputs of its length. */
  ghost predicate Walkable(l: List, size: nat) {
    l.Filled? ==> l.spots != [] && SkipsFit(l.spots) && InReach(l.spots, size)
  }

  /** The lists are exactly those of the keywords. */
  ghost predicate Selects(keywords: seq<string>, selector: seq<List>)
    requires Usable(keywords)
  {
    |selector| == LISTS && forall size {:trigger Wanted(keywords, size)} :: 0 <= size < LISTS ==>
      selector[size] == Wanted(keywords, size)
  }

  lemma WantedWalkable(keywords: seq<string>, size: nat)
    requires Usable(keywords)
    ensures Walkable(Wanted(keywords, size), size)
  {
    if Occurs(keywords, size) {
      ClassExists(keywords, size);
      CompiledFits(ClassOf(keywords, size), size);
    }
  }

  /** The length of the longest of the first i keywords, at least 1. */
  function Longest(keywords: seq<string>, i: nat): (m: nat)
    requires i <= |keywords|
    ensures m >= 1
  {
    if i == 0 then 1
    else
      var m := Longest(keywords, i - 1);
      if m < |keywords[i - 1]| then |keywords[i - 1]| else m
  }

  /** The lists in map m are those for the lengths of the first i keywords. */
  ghost predicate Built(keywords: seq<string>, i: nat, m: map<nat, seq<Spot>>)
    requires Usable(keywords)
  {
    && (forall size {:trigger size in m} :: size in m <==>
        exists j :: 0 <= j < i && j < |keywords| && |keywords[j]| == size)
    && (forall size {:trigger Wanted(keywords, size)} :: size in m ==> Filled(m[size]) == Wanted(keywords, size))
  }

  /** `Built`, unfolded only where `MadeIs` calls for it. */
  ghost predicate Made(keywords: seq<string>, i: nat, m: map<nat, seq<Spot>>) {
    forall u {:trigger Look(u)} :: Look(u) ==> Usable(keywords) && Built(keywords, i, m)
  }

  lemma MadeIs(keywords: seq<string>, i: nat, m: map<nat, seq<Spot>>)
    ensures Made(keywords, i, m) <==> Usable(keywords) && Built(keywords, i, m)
  {
    assert Look(0);
  }

  /** The new lists for lengths that occur, the old ones for the others. */
  ghost predicate Updated(keywords: seq<string>, was: seq<List>, now: seq<List>) {
    forall u {:trigger Look(u)} :: Look(u) ==>
      && Usable(keywords) && |now| == |was| == LISTS
      && forall k {:trigger now[k]} :: 0 <= k < LISTS ==>
           now[k] == if Occurs(keywords, k) then Wanted(keywords, k) else was[k]
  }

  lemma UpdatedIs(keywords: seq<string>, was: seq<List>, now: seq<List>)
    ensures Updated(keywords, was, now) <==>
            && Usable(keywords) && |now| == |was| == LISTS
            && forall k {:trigger now[k]} :: 0 <= k < LISTS ==>
                 now[k] == if Occurs(keywords, k) then Wanted(keywords, k) else was[k]
  {
    assert Look(0);
  }

  /** Writing the lists of m over those of was. */
  lemma UpdatedBy(keywords: seq<string>, m: map<nat, seq<Spot>>, was: seq<List>, now: seq<List>)
    requires Made(keywords, |keywords|, m) && |now| == |was| == LISTS
    requires forall k {:trigger now[k]} :: 0 <= k < LISTS ==> now[k] == if k in m then Filled(m[k]) else was[k]
    ensures Updated(keywords, was, now)
  {
    MadeIs(keywords, |keywords|, m);
    forall k | 0 <= k < LISTS ensures now[k] == if Occurs(keywords, k) then Wanted(keywords, k) else was[k] {
      assert k in m <==> Occurs(keywords, k);
    }
    UpdatedIs(keywords, was, now);
  }

  lemma UpdatedWalkable(keywords: seq<string>, was: seq<List>, now: seq<List>)
    requires Updated(keywords, was, now) && |was| == |now| == LISTS
    requires forall k {:trigger was[k]} :: 0 <= k < LISTS ==> Walkable(was[k], k)
    ensures forall k {:trigger now[k]} :: 0 <= k < LISTS ==> Walkable(now[k], k)
  {
    UpdatedIs(keywords, was, now);
    forall k | 0 <= k < LISTS ensures Walkable(now[k], k) { WantedWalkable(keywords, k); }
  }

  /** What MatchSubstring hands back through its const char* overload.  BadIndex: it reads
      spotSelectorMatch or keywords behind the end. */
  datatype TextLookup = BadIndex | NoText | Named(s: string)

  function TextOf(keywords: seq<string>, limit: nat, selector: seq<List>, input: string): TextLookup
    requires |selector| == LISTS
  {
    if limit < |input| then NoText
    else if |input| >= LISTS then BadIndex
    else
      match LookIn(selector[|input|], input)
      case Miss => NoText
      case Hit(v) => if 0 <= v < |keywords| then Named(keywords[v]) else BadIndex
  }

  class FastSubstringMatcher {
    const selector: array<List>
    var maxKeywordSize: nat
    var keywords: seq<string>

    ghost predicate Valid()
      reads this, selector
    {
      selector.Length == LISTS && forall size {:trigger selector[size]} :: 0 <= size < LISTS ==>
        Walkable(selector[size], size)
    }

    constructor ()
      ensures Valid() && fresh(selector) && forall size :: 0 <= size < LISTS ==> selector[size] == Empty
    {
      selector := new List[LISTS](_ => Empty);
      maxKeywordSize := 0;
      keywords := [];
    }

    method CollectClass(kws: seq<string>, size: nat) returns (ms: seq<Entry>)
      ensures ms == ClassOf(kws, size)
    {
      ms := [];
      var j := |kws|;
      while j > 0
        invariant 0 <= j <= |kws| && ms == ClassFrom(kws, size, j)
      {
        j := j - 1;
        if |kws[j]| == size { ms := [Entry(j, kws[j])] + ms; }
      }
    }

    /** spotSelector and the longest length. */
    method BuildLists(kws: seq<string>) returns (lists: map<nat, seq<Spot>>, longest: nat)
      requires Usable(kws)
      ensures Made(kws, |kws|, lists) && longest == Longest(kws, |kws|)
    {
      lists, longest := map[], 1;
      MadeIs(kws, 0, lists);
      var i := 0;
      while i < |kws|
        invariant 0 <= i <= |kws| && Made(kws, i, lists) && longest == Longest(kws, i)
      {
        var size := |kws[i]|;
        if size !in lists {
          assert Occurs(kws, size);
          var list := BuildList(kws, size);
          BuiltNew(kws, i, lists, list);
          lists := lists[size := list];
          if longest < size { longest := size; }
        } else {
          BuiltOld(kws, i, lists);
        }
        i := i + 1;
      }
    }

    method BuildList(kws: seq<string>, size: nat) returns (list: seq<Spot>)
      requires Usable(kws) && Occurs(kws, size)
      ensures Filled(list) == Wanted(kws, size)
    {
      ClassExists(kws, size);
      var ms := CollectClass(kws, size);
      list := SolveMatchers(ms, size, []);
      assert [] + Compiled(ms, size) == Compiled(ms, size);
    }

    /** Only the entries for lengths that occur are written: a second call leaves the lists of the
        first for all other lengths. */
    method SetKeywords(kws: seq<string>)
      requires Valid() && Usable(kws)
      modifies this, selector
      ensures Valid() && keywords == kws && maxKeywordSize == Longest(kws, |kws|) + 1
      ensures Updated(kws, old(selector[..]), selector[..])
    {
      keywords := kws;
      var lists, longest := BuildLists(kws);
      maxKeywordSize := longest + 1;
      ghost var was := selector[..];
      WriteLists(lists);
      UpdatedBy(kws, lists, was, selector[..]);
      UpdatedWalkable(kws, was, selector[..]);
      assert forall size :: 0 <= size < LISTS ==> selector[size] == selector[..][size];
    }

    method WriteLists(lists: map<nat, seq<Spot>>)
      requires selector.Length == LISTS
      modifies selector
      ensures forall k {:trigger selector[k]} :: 0 <= k < LISTS ==>
                selector[k] == if k in lists then Filled(lists[k]) else old(selector[k])
    {
      var size := 0;
      while size < LISTS
        invariant 0 <= size <= LISTS
        invariant forall k {:trigger selector[k]} :: 0 <= k < LISTS ==>
                    selector[k] == if k < size && k in lists then Filled(lists[k]) else old(selector[k])
      {
        if size in lists { selector[size] := Filled(lists[size]); }
        size := size + 1;
      }
    }

    /** The overload for an index: no guard. */
    method MatchSubstring(input: string) returns (r: Lookup)
      requires Valid()
      ensures r == if |input| >= LISTS then OutOfRange else Answered(LookIn(selector[|input|], input))
    {
      if |input| >= LISTS { return OutOfRange; }
      var list := selector[|input|];
      if list.Empty? { return Answered(Miss); }
      var a := MatchSpots(list.spots, input);
      return Answered(a);
    }

    /** The overload for the keyword itself, guarded by maxKeywordSize. */
    method MatchText(input: string) returns (r: TextLookup)
      requires Valid()
      ensures r == TextOf(keywords, maxKeywordSize, selector[..], input)
    {
      if maxKeywordSize < |input| { return NoText; }
      if |input| >= LISTS { return BadIndex; }
      var list := selector[|input|];
      if list.Empty? { return NoText; }
      var a := MatchSpots(list.spots, input);
      if a.Miss? { return NoText; }
      if !(0 <= a.idx < |keywords|) { return BadIndex; }
      return Named(keywords[a.idx]);
    }
  }

  lemma BuiltOld(kws: seq<string>, i: nat, m: map<nat, seq<Spot>>)
    requires i < |kws| && Made(kws, i, m) && |kws[i]| in m
    ensures Made(kws, i + 1, m) && |kws[i]| <= Longest(kws, i)
  {
    MadeIs(kws, i, m);
    LongestKnown(kws, i, |kws[i]|);
    BuiltStill(kws, i, m);
    MadeIs(kws, i + 1, m);
  }

  lemma BuiltStill(kws: seq<string>, i: nat, m: map<nat, seq<Spot>>)
    requires Usable(kws) && i < |kws| && Built(kws, i, m) && |kws[i]| in m
    ensures Built(kws, i + 1, m)
  {}

  lemma BuiltNew(kws: seq<string>, i: nat, m: map<nat, seq<Spot>>, list: seq<Spot>)
    requires i < |kws| && Made(kws, i, m) && Usable(kws) && Filled(list) == Wanted(kws, |kws[i]|)
    ensures Made(kws, i + 1, m[|kws[i]| := list])
  {
    MadeIs(kws, i, m);
    var m' := m[|kws[i]| := list];
    forall size ensures size in m' <==> exists j :: 0 <= j < i + 1 && j < |kws| && |kws[j]| == size {
      if size == |kws[i]| { assert 0 <= i < i + 1; }
    }
    MadeIs(kws, i + 1, m');
  }

  lemma {:induction false} LongestKnown(kws: seq<string>, i: nat, size: nat)
    requires i <= |kws| && exists j :: 0 <= j < i && |kws[j]| == size
    ensures size <= Longest(kws, i)
  {
    if |kws[i - 1]| != size { LongestKnown(kws, i - 1, size); }
  }

  lemma {:induction false} LongestIs(kws: seq<string>, i: nat)
    requires i <= |kws|
    ensures forall j {:trigger kws[j]} :: 0 <= j < i ==> |kws[j]| <= Longest(kws, i)
    ensures Longest(kws, i) > 1 ==> exists j :: 0 <= j < i && |kws[j]| == Longest(kws, i)
  {
    if i > 0 { LongestIs(kws, i - 1); }
  }

  /** A first SetKeywords makes the lists exactly those of the keywords, and MatchSubstring answers
      accordingly; its lookup is in range exactly for inputs shorter than 256. */
  lemma FirstKeywords(kws: seq<string>, was: seq<List>, now: seq<List>, input: string)
    requires Updated(kws, was, now) && |was| == |now| == LISTS
    requires (forall k {:trigger was[k]} :: 0 <= k < LISTS ==> was[k] == Empty)
    ensures Usable(kws) && Selects(kws, now)
    ensures Match(kws, input) == if |input| >= LISTS then OutOfRange else Answered(LookIn(now[|input|], input))
    ensures Match(kws, input).OutOfRange? <==> |input| >= LISTS
  {
    UpdatedIs(kws, was, now);
    forall k | 0 <= k < LISTS ensures now[k] == Wanted(kws, k) { assert was[k] == Empty; }
  }

  /** A further call keeps the old list for a length that no longer occurs, so inputs of that length
      are still matched against the old keywords. */
  lemma StaleLists(kws: seq<string>, kws': seq<string>, was: seq<List>, now: seq<List>, size: nat)
    requires Usable(kws) && Selects(kws, was) && Updated(kws', was, now) && |was| == |now| == LISTS && size < LISTS
    ensures Usable(kws') && now[size] == if Occurs(kws', size) then Wanted(kws', size) else Wanted(kws, size)
    ensures Selects(kws', now) <==>
              forall k {:trigger Occurs(kws, k)} :: 0 <= k < LISTS && Occurs(kws, k) ==> Occurs(kws', k)
  {
    UpdatedIs(kws', was, now);
    if forall k {:trigger Occurs(kws, k)} :: 0 <= k < LISTS && Occurs(kws, k) ==> Occurs(kws', k) {
      forall k | 0 <= k < LISTS ensures now[k] == Wanted(kws', k) { assert was[k] == Wanted(kws, k); }
    } else {
      var k :| 0 <= k < LISTS && Occurs(kws, k) && !Occurs(kws', k);
      assert now[k] == was[k] == Wanted(kws, k) && Wanted(kws', k) == Empty;
    }
  }

  /** After a first SetKeywords the guarded overload reads out of range exactly for inputs of 256
      bytes when some keyword has 255: maxKeywordSize is one more than the longest length.  Otherwise
      it names the keyword the other overload gives the index of. */
  lemma GuardFailsIff(kws: seq<string>, selector: seq<List>, input: string)
    requires Usable(kws) && Selects(kws, selector)
    ensures var r := TextOf(kws, Longest(kws, |kws|) + 1, selector, input);
            && (r.BadIndex? <==> |input| == LISTS && Occurs(kws, LISTS - 1))
            && (|input| >= LISTS ==> !r.Named?)
            && (|input| < LISTS ==>
                var a := LookIn(selector[|input|], input);
                if a.Hit? then 0 <= a.idx < |kws| && r == Named(kws[a.idx]) else r == NoText)
  {
    if |input| < LISTS {
      var a := AnswerIn(kws, selector, input);
      TextAt(kws, Longest(kws, |kws|) + 1, selector, input, a);
    } else {
      GuardOut(kws, selector, input);
    }
  }

  lemma AnswerIn(kws: seq<string>, selector: seq<List>, input: string) returns (a: Answer)
    requires Usable(kws) && Selects(kws, selector) && |input| < LISTS
    ensures a == LookIn(selector[|input|], input)
    ensures a.Hit? ==> 0 <= a.idx < |kws| && |input| <= Longest(kws, |kws|)
  {
    a := AnswerAt(kws, selector, input);
  }

  lemma GuardOut(kws: seq<string>, selector: seq<List>, input: string)
    requires Usable(kws) && |selector| == LISTS && |input| >= LISTS
    ensures var r := TextOf(kws, Longest(kws, |kws|) + 1, selector, input);
            !r.Named? && (r.BadIndex? <==> |input| == LISTS && Occurs(kws, LISTS - 1))
  {
    LongestFits(kws);
  }

  /** The answer for an input in range is a keyword's place, and the guard admits that keyword. */
  lemma AnswerAt(kws: seq<string>, selector: seq<List>, input: string) returns (a: Answer)
    requires Usable(kws) && Selects(kws, selector) && |input| < LISTS
    ensures Match(kws, input) == Answered(a) && a == LookIn(selector[|input|], input)
    ensures a.Hit? ==> 0 <= a.idx < |kws| && |input| <= Longest(kws, |kws|)
  {
    assert selector[|input|] == Wanted(kws, |input|);
    a := Match(kws, input).a;
    if a.Hit? {
      HitsKeyword(kws, input);
      LongestKnown(kws, |kws|, |input|);
    }
  }

  lemma TextAt(kws: seq<string>, limit: nat, selector: seq<List>, input: string, a: Answer)
    requires |selector| == LISTS && |input| < LISTS && a == LookIn(selector[|input|], input)
    requires a.Hit? ==> 0 <= a.idx < |kws| && |input| <= limit
    ensures TextOf(kws, limit, selector, input) == if a.Hit? then Named(kws[a.idx]) else NoText
  {}

  lemma LongestFits(kws: seq<string>)
    requires Usable(kws)
    ensures Longest(kws, |kws|) < LISTS && (Longest(kws, |kws|) == LISTS - 1 <==> Occurs(kws, LISTS - 1))
  {
    LongestIs(kws, |kws|);
    if Occurs(kws, LISTS - 1) { LongestKnown(kws, |kws|, LISTS - 1); }
    if Longest(kws, |kws|) > 1 {
      var j :| 0 <= j < |kws| && |kws[j]| == Longest(kws, |kws|);
      assert |kws[j]| < 256;
    }
  }

  const LONG: string := seq(255, _ => 'k')

  /** One keyword of 255 letters, and an input of 256, which the guard lets through. */
  lemma GuardFails(selector: seq<List>)
    requires Usable([LONG]) && Selects([LONG], selector)
    ensures TextOf([LONG], Longest([LONG], 1) + 1, selector, LONG + "k") == BadIndex
  {
    var kws := [LONG];
    assert |kws[0]| == LISTS - 1;
    assert Occurs(kws, LISTS - 1);
    GuardFailsIff(kws, selector, LONG + "k");
  }

  const OLDER: seq<string> := ["a", "bb"]
  const NEWER: seq<string> := ["ccc"]

  lemma OlderMatches()
    requires Usable(OLDER)
    ensures Match(OLDER, "bb") == Answered(Hit(1)) && |OLDER[1]| == 2 && !Occurs(NEWER, 2)
  {
    var older := OLDER;
    assert |older[1]| == 2;
    assert Occurs(OLDER, 2);
    ClassDiffers(OLDER, 2, 0);
    KeywordsMatch(OLDER, 1);
  }

  /** A list left by an earlier call can answer with a place that the new keywords do not have. */
  lemma StaleOutside(was: seq<List>, now: seq<List>)
    requires Usable(OLDER) && Selects(OLDER, was)
    requires Updated(NEWER, was, now) && |was| == |now| == LISTS
    ensures TextOf(NEWER, Longest(NEWER, 1) + 1, now, "bb") == BadIndex
  {
    OlderMatches();
    StaleLists(OLDER, NEWER, was, now, 2);
    assert Longest(NEWER, 0) == 1 && Longest(NEWER, 1) == 3;
  }

  /** An input of 256 letters, which the overload for an index does not guard against. */
  lemma UnguardedFails()
    ensures Usable(COMMANDS) && Match(COMMANDS, seq(256, _ => 'x')) == OutOfRange
  {
    CommandsUsable();
  }

  /** Whatever the input, an index returned is that of a keyword of its length. */
  lemma HitsKeyword(kws: seq<string>, input: string)
    requires Usable(kws) && |input| < LISTS && Match(kws, input).a.Hit?
    ensures var v := Match(kws, input).a.idx; 0 <= v < |kws| && |kws[v]| == |input|
  {
    var size := |input|;
    ClassExists(kws, size);
    var ms := ClassOf(kws, size);
    CompiledFits(ms, size);
    HitIsLeaf(Compiled(ms, size), input, 0);
    var k :| 0 <= k < |Compiled(ms, size)| && Compiled(ms, size)[k].idx >= 0
      && Compiled(ms, size)[k].idx == Match(kws, input).a.idx;
    LeafIn(Compiled(ms, size), k);
    IndexesFrom(ms, Match(kws, input).a.idx);
    ClassMembers(kws, size, 0);
  }

  // ---- what it answers ----

  ghost predicate ShallowClass(keywords: seq<string>, size: nat) {
    Usable(keywords) && Occurs(keywords, size) && Good(ClassOf(keywords, size), size)
      && Shallow(ClassOf(keywords, size), size)
  }

  /** Every keyword whose class needs at most two tested positions gets its own index. */
  lemma KeywordsMatch(keywords: seq<string>, i: nat)
    requires i < |keywords| && ShallowClass(keywords, |keywords[i]|)
    ensures Match(keywords, keywords[i]) == Answered(Hit(i))
  {
    var w := keywords[i];
    var ms, size := ClassOf(keywords, |w|), |w|;
    ClassMembers(keywords, size, 0);
    WalkIsDecide(ms, size, w);
    DecideFinds(ms, size, Entry(i, w), w);
  }

  /** Any keyword, whatever the nesting: it gets its own index exactly when nothing on the way to it
      accepts it by mistake. */
  lemma KeywordMatchedIff(keywords: seq<string>, i: nat)
    requires Usable(keywords) && i < |keywords|
    ensures Good(ClassOf(keywords, |keywords[i]|), |keywords[i]|)
    ensures Match(keywords, keywords[i]) == Answered(Hit(i)) <==>
              Reached(ClassOf(keywords, |keywords[i]|), |keywords[i]|, keywords[i])
  {
    var w := keywords[i];
    var ms, size := ClassOf(keywords, |w|), |w|;
    assert Occurs(keywords, size);
    ClassExists(keywords, size);
    ClassMembers(keywords, size, 0);
    ClassIncreasing(keywords, size, 0);
    MatchedIff(ms, size, Entry(i, w), w);
  }

  /** In particular when only the last group of each level is nested deeper. */
  lemma TidyKeywordsMatch(keywords: seq<string>, i: nat)
    requires Usable(keywords) && i < |keywords| && Good(ClassOf(keywords, |keywords[i]|), |keywords[i]|)
    requires Tidy(ClassOf(keywords, |keywords[i]|), |keywords[i]|)
    ensures Match(keywords, keywords[i]) == Answered(Hit(i))
  {
    var w := keywords[i];
    ClassMembers(keywords, |w|, 0);
    TidyReached(ClassOf(keywords, |w|), |w|, Entry(i, w), w);
    KeywordMatchedIff(keywords, i);
  }

  /** An accepted input has the length of the keyword returned and agrees with it at every
      position tested on the way to it. */
  lemma AcceptedAgrees(keywords: seq<string>, input: string)
    requires ShallowClass(keywords, |input|) && |input| < LISTS && Match(keywords, input).a.Hit?
    ensures var v := Match(keywords, input).a.idx;
            && 0 <= v < |keywords| && |keywords[v]| == |input|
            && Agrees(ClassOf(keywords, |input|), |input|, Entry(v, keywords[v]), input)
  {
    var ms, size := ClassOf(keywords, |input|), |input|;
    WalkIsDecide(ms, size, input);
    var e := DecideAgrees(ms, size, input);
    ClassMembers(keywords, size, 0);
  }

  // ---- classes that differ at one position ----

  lemma {:induction false} UniqFull(cs: seq<char>)
    requires |Uniq(cs)| == |cs|
    ensures forall i, j :: 0 <= i < j < |cs| ==> cs[i] != cs[j]
  {
    if cs != [] {
      var init := cs[..|cs| - 1];
      UniqIs(init);
      UniqFull(init);
      forall i | 0 <= i < |cs| - 1 ensures cs[i] != cs[|cs| - 1] { assert init[i] in init; }
      forall i, j | 0 <= i < j < |cs| ensures cs[i] != cs[j] {
        if j < |cs| - 1 { assert init[i] == cs[i] && init[j] == cs[j]; }
      }
    }
  }

  lemma {:induction false} GroupNone(ms: seq<Entry>, p: int, c: char)
    requires forall i {:trigger ms[i]} :: 0 <= i < |ms| ==> At(ms[i], p) != c
    ensures Group(ms, p, c) == []
  {
    if ms != [] { GroupNone(ms[1..], p, c); }
  }

  lemma {:induction false} GroupSingle(ms: seq<Entry>, p: int, c: char)
    requires forall i, j {:trigger ms[i], ms[j]} :: 0 <= i < j < |ms| ==> At(ms[i], p) != At(ms[j], p)
    ensures |Group(ms, p, c)| <= 1
  {
    if ms != [] {
      var r := ms[1..];
      assert forall i :: 0 <= i < |r| ==> r[i] == ms[i + 1];
      if At(ms[0], p) == c { GroupNone(r, p, c); } else { GroupSingle(r, p, c); }
    }
  }

  lemma {:induction false} SinglesFlat(ms: seq<Entry>, size: nat, cs: seq<char>)
    requires Good(ms, size) && (forall c :: c in cs ==> c in Chars(ms, Best(ms, size)))
    requires forall c :: c in cs ==> |Group(ms, Best(ms, size), c)| == 1
    ensures Inner(Spots(ms, size, cs)) == 0
    decreases |cs|
  {
    if cs != [] {
      assert cs == [cs[0]] + cs[1..];
      InnerOne(ms, size, cs[0]);
      SinglesFlat(ms, size, cs[1..]);
      Together(One(ms, size, cs[0]), Spots(ms, size, cs[1..]));
    }
  }

  /** Candidates that all differ at some position make a flat list. */
  lemma AllDifferent(ms: seq<Entry>, size: nat, q: nat)
    requires Good(ms, size) && q < size && |Chars(ms, q)| == |ms|
    ensures Flat(ms, size) && Shallow(ms, size)
  {
    BestIs(ms, size, q);
    var p := Best(ms, size);
    var col := Column(ms, p);
    UniqIs(col);
    UniqFull(col);
    forall c | c in Chars(ms, p) ensures |Group(ms, p, c)| == 1 {
      GroupFacts(ms, size, c);
      assert forall i, j :: 0 <= i < j < |ms| ==> At(ms[i], p) == col[i] && At(ms[j], p) == col[j];
      GroupSingle(ms, p, c);
    }
    SinglesFlat(ms, size, Chars(ms, p));
    FlatIsShallow(ms, size);
  }

  // ---- the server's commands ----

  /** src/Server.cpp, in the order of the request types. */
  const COMMANDS: seq<string> := [
    "get", "set", "add", "delete", "replace", "cas", "gets", "append", "prepend", "incr", "deccr",
    "touch", "watch", "lru_crawler", "stats", "slabs"]

  /** The position at which all commands of one length differ. */
  function Telling(size: nat): nat { if size == 5 then 1 else 0 }

  lemma {:induction false} ColumnDistinct(cs: seq<char>)
    requires forall i, j :: 0 <= i < j < |cs| ==> cs[i] != cs[j]
    ensures Uniq(cs) == cs
  {
    if cs != [] {
      var init := cs[..|cs| - 1];
      ColumnDistinct(init);
      assert cs == init + [cs[|cs| - 1]];
    }
  }

  lemma IncreasingCons(e: Entry, r: seq<Entry>)
    requires Increasing(r) && forall x :: x in r ==> x.idx > e.idx
    ensures Increasing([e] + r)
  {
    var ms := [e] + r;
    forall a, b | 0 <= a < b < |ms| ensures ms[a].idx < ms[b].idx {
      assert ms[b] == r[b - 1] && r[b - 1] in r;
      if a > 0 { assert ms[a] == r[a - 1]; }
    }
  }

  /** Classes are increasing in their places. */
  lemma {:induction false} ClassIncreasing(keywords: seq<string>, size: nat, i: nat)
    ensures Increasing(ClassFrom(keywords, size, i))
    decreases |keywords| - i
  {
    if i < |keywords| {
      ClassIncreasing(keywords, size, i + 1);
      ClassMembers(keywords, size, i + 1);
      if |keywords[i]| == size { IncreasingCons(Entry(i, keywords[i]), ClassFrom(keywords, size, i + 1)); }
    }
  }

  /** Keywords of one length that all differ at position q. */
  lemma ClassDiffers(keywords: seq<string>, size: nat, q: nat)
    requires Usable(keywords) && Occurs(keywords, size) && q < size
    requires forall i, j {:trigger keywords[i], keywords[j]} ::
               0 <= i < j < |keywords| && |keywords[i]| == |keywords[j]| == size ==> keywords[i][q] != keywords[j][q]
    ensures ShallowClass(keywords, size)
  {
    ClassExists(keywords, size);
    ClassIncreasing(keywords, size, 0);
    ClassMembers(keywords, size, 0);
    var ms := ClassOf(keywords, size);
    var col := Column(ms, q);
    forall a, b | 0 <= a < b < |ms| ensures col[a] != col[b] {
      assert ms[a] in ms && ms[b] in ms;
      assert keywords[ms[a].idx] != keywords[ms[b].idx];
    }
    ColumnDistinct(col);
    AllDifferent(ms, size, q);
  }

  lemma CommandsTell(i: nat, j: nat)
    requires i < j < |COMMANDS| && |COMMANDS[i]| == |COMMANDS[j]|
    ensures Telling(|COMMANDS[i]|) < |COMMANDS[i]|
    ensures COMMANDS[i][Telling(|COMMANDS[i]|)] != COMMANDS[j][Telling(|COMMANDS[i]|)]
  {}

  lemma CommandSizes(i: nat)
    requires i < |COMMANDS|
    ensures 0 < |COMMANDS[i]| < 256 && Telling(|COMMANDS[i]|) < |COMMANDS[i]|
  {}

  lemma CommandsUsable()
    ensures Usable(COMMANDS)
  {
    forall i | 0 <= i < |COMMANDS| ensures 0 < |COMMANDS[i]| < 256 { CommandSizes(i); }
    forall i, j | 0 <= i < j < |COMMANDS| ensures COMMANDS[i] != COMMANDS[j] {
      if |COMMANDS[i]| == |COMMANDS[j]| { CommandsTell(i, j); }
    }
  }

  /** Every command of the server is recognised as itself. */
  lemma CommandsMatch(i: nat)
    requires i < |COMMANDS|
    ensures Usable(COMMANDS) && Match(COMMANDS, COMMANDS[i]) == Answered(Hit(i))
  {
    CommandsUsable();
    CommandSizes(i);
    var size := |COMMANDS[i]|;
    forall a, b | 0 <= a < b < |COMMANDS| && |COMMANDS[a]| == |COMMANDS[b]| == size
      ensures COMMANDS[a][Telling(size)] != COMMANDS[b][Telling(size)]
    {
      CommandsTell(a, b);
    }
    ClassDiffers(COMMANDS, size, Telling(size));
    KeywordsMatch(COMMANDS, i);
  }

  // ---- a keyword taken for another ----

  const DEEP: seq<string> := ["aaa", "aab", "aba", "bba"]

  const TOP: seq<Entry> := [Entry(0, "aaa"), Entry(1, "aab"), Entry(2, "aba"), Entry(3, "bba")]
  const MIDDLE: seq<Entry> := [Entry(0, "0aa"), Entry(1, "0ab"), Entry(2, "0ba")]
  const BOTTOM: seq<Entry> := [Entry(0, "00a"), Entry(1, "00b")]

  /** Two characters in a column. */
  lemma TwoChars(ms: seq<Entry>, p: int, col: seq<char>, a: char, b: char)
    requires Column(ms, p) == col && |col| >= 2 && col[0] == a && a != b
    requires (forall i :: 0 <= i < |col| ==> col[i] == a || col[i] == b) && b in col
    ensures Chars(ms, p) == [a, b]
  {
    TwoUniq(col, a, b);
  }

  lemma {:induction false} TwoUniq(col: seq<char>, a: char, b: char)
    requires |col| >= 1 && col[0] == a && a != b && forall i :: 0 <= i < |col| ==> col[i] == a || col[i] == b
    ensures Uniq(col) == if b in col then [a, b] else [a]
  {
    if |col| > 1 {
      TwoUniq(col[..|col| - 1], a, b);
      assert col == col[..|col| - 1] + [col[|col| - 1]];
    } else {
      assert col == [a];
      assert Uniq(col[..0]) == [];
    }
  }

  lemma TwoSpots(ms: seq<Entry>, size: nat, a: char, b: char)
    requires Good(ms, size) && Chars(ms, Best(ms, size)) == [a, b]
    ensures Compiled(ms, size) == One(ms, size, a) + One(ms, size, b)
  {
    assert [a, b][1..] == [b] && [b][1..] == [];
    assert Spots(ms, size, [b]) == One(ms, size, b) + [];
  }

  lemma TwoLeaves(ms: seq<Entry>, size: nat, p: nat, a: char, b: char, e: Entry, f: Entry)
    requires Good(ms, size) && p == Best(ms, size) && Chars(ms, p) == [a, b] && Group(ms, p, a) == [e]
    requires Group(ms, p, b) == [f]
    ensures Compiled(ms, size) == [Spot(p, a, e.idx), Spot(p, b, f.idx)]
  {
    OneLeaf(ms, size, a);
    OneLeaf(ms, size, b);
    TwoSpots(ms, size, a, b);
  }

  lemma InnerThenLeaf(ms: seq<Entry>, size: nat, p: nat, a: char, b: char, f: Entry)
    returns (g: seq<Entry>, sub: seq<Entry>)
    requires Good(ms, size) && p == Best(ms, size) && Chars(ms, p) == [a, b]
    requires |Group(ms, p, a)| != 1 && Group(ms, p, b) == [f]
    ensures g == Group(ms, p, a) && sub == Masked(g, p) && |sub| == |g| && Good(sub, size)
    ensures Compiled(ms, size) == [Spot(p, a, -|g|)] + Compiled(sub, size) + [Spot(p, b, f.idx)]
  {
    var q;
    TwoSpots(ms, size, a, b);
    OneLeaf(ms, size, b);
    q, g, sub := OneInner(ms, size, a);
  }

  lemma BottomBest()
    ensures Good(BOTTOM, 3) && Best(BOTTOM, 3) == 2 && Chars(BOTTOM, 2) == ['a', 'b']
  {
    assert BOTTOM[0].s[2] != BOTTOM[1].s[2];
    UniqFew(Column(BOTTOM, 0), '0');
    UniqFew(Column(BOTTOM, 1), '0');
    TwoChars(BOTTOM, 2, ['a', 'b'], 'a', 'b');
    assert Best(BOTTOM, 1) == 0 && Best(BOTTOM, 2) == 0;
  }

  lemma BottomList()
    ensures Good(BOTTOM, 3) && Compiled(BOTTOM, 3) == [Spot(2, 'a', 0), Spot(2, 'b', 1)]
  {
    BottomBest();
    assert BOTTOM[1..] == [Entry(1, "00b")];
    assert Group(BOTTOM, 2, 'a') == [Entry(0, "00a")] && Group(BOTTOM, 2, 'b') == [Entry(1, "00b")];
    TwoLeaves(BOTTOM, 3, 2, 'a', 'b', Entry(0, "00a"), Entry(1, "00b"));
  }

  lemma MiddleGood()
    ensures Good(MIDDLE, 3)
  {
    assert MIDDLE[0].s[2] != MIDDLE[1].s[2] && MIDDLE[0].s[1] != MIDDLE[2].s[1] && MIDDLE[1].s[1] != MIDDLE[2].s[1];
  }

  lemma MiddleBest()
    ensures Good(MIDDLE, 3) && Best(MIDDLE, 3) == 1 && Chars(MIDDLE, 1) == ['a', 'b']
  {
    MiddleGood();
    UniqFew(Column(MIDDLE, 0), '0');
    TwoChars(MIDDLE, 1, ['a', 'a', 'b'], 'a', 'b');
    TwoChars(MIDDLE, 2, ['a', 'b', 'a'], 'a', 'b');
    assert Best(MIDDLE, 1) == 0 && Best(MIDDLE, 2) == 1;
  }

  lemma MiddleGroups()
    ensures Group(MIDDLE, 1, 'b') == [Entry(2, "0ba")]
    ensures |Group(MIDDLE, 1, 'a')| == 2 && Masked(Group(MIDDLE, 1, 'a'), 1) == BOTTOM
  {
    var t1, t2 := MIDDLE[1..], MIDDLE[2..];
    assert t1[1..] == t2 && t2[1..] == [];
    assert Group(t2, 1, 'a') == [] && Group(t2, 1, 'b') == [Entry(2, "0ba")];
    assert Group(t1, 1, 'a') == [Entry(1, "0ab")] && Group(t1, 1, 'b') == [Entry(2, "0ba")];
    var g := Group(MIDDLE, 1, 'a');
    assert g == [Entry(0, "0aa"), Entry(1, "0ab")];
    assert Masked(g, 1)[0] == BOTTOM[0] && Masked(g, 1)[1] == BOTTOM[1];
  }

  /** ms has this list; unfolded only where `HasListIs` calls for it. */
  ghost predicate HasList(ms: seq<Entry>, size: nat, list: seq<Spot>) {
    forall u {:trigger Look(u)} :: Look(u) ==> Good(ms, size) && Compiled(ms, size) == list
  }

  lemma HasListIs(ms: seq<Entry>, size: nat, list: seq<Spot>)
    ensures HasList(ms, size, list) <==> Good(ms, size) && Compiled(ms, size) == list
  {
    assert Look(0);
  }

  /** ms splits at p into the group sub under a and the single f under b. */
  ghost predicate Splits(ms: seq<Entry>, size: nat, p: nat, a: char, b: char, sub: seq<Entry>, f: Entry) {
    forall u {:trigger Look(u)} :: Look(u) ==>
      && Good(ms, size) && p == Best(ms, size) && Chars(ms, p) == [a, b]
      && |Group(ms, p, a)| != 1 && Masked(Group(ms, p, a), p) == sub && Group(ms, p, b) == [f]
  }

  lemma ListOver(ms: seq<Entry>, size: nat, p: nat, a: char, b: char, sub: seq<Entry>, f: Entry, list: seq<Spot>)
    requires Splits(ms, size, p, a, b, sub, f) && HasList(sub, size, list)
    ensures HasList(ms, size, [Spot(p, a, -|sub|)] + list + [Spot(p, b, f.idx)])
  {
    assert Look(0);
    HasListIs(sub, size, list);
    var g, m := InnerThenLeaf(ms, size, p, a, b, f);
    HasListIs(ms, size, [Spot(p, a, -|sub|)] + list + [Spot(p, b, f.idx)]);
  }

  lemma BottomHasList()
    ensures HasList(BOTTOM, 3, [Spot(2, 'a', 0), Spot(2, 'b', 1)])
  {
    BottomList();
    HasListIs(BOTTOM, 3, [Spot(2, 'a', 0), Spot(2, 'b', 1)]);
  }

  lemma MiddleSplits()
    ensures Splits(MIDDLE, 3, 1, 'a', 'b', BOTTOM, Entry(2, "0ba"))
  {
    MiddleBest();
    MiddleGroups();
  }

  lemma TopSplits()
    ensures Splits(TOP, 3, 0, 'a', 'b', MIDDLE, Entry(3, "bba"))
  {
    TopBest();
    TopGroups();
  }

  lemma TopBest()
    ensures Good(TOP, 3) && Best(TOP, 3) == 0 && Chars(TOP, 0) == ['a', 'b']
  {
    TopGood();
    TwoChars(TOP, 0, ['a', 'a', 'a', 'b'], 'a', 'b');
    TwoChars(TOP, 1, ['a', 'a', 'b', 'b'], 'a', 'b');
    TwoChars(TOP, 2, ['a', 'b', 'a', 'a'], 'a', 'b');
    assert Best(TOP, 1) == 0 && Best(TOP, 2) == 0;
  }

  lemma TopList()
    ensures HasList(TOP, 3, [Spot(0, 'a', -3), Spot(1, 'a', -2), Spot(2, 'a', 0), Spot(2, 'b', 1), Spot(1, 'b', 2),
                             Spot(0, 'b', 3)])
  {
    var bottom, middle := [Spot(2, 'a', 0), Spot(2, 'b', 1)],
      [Spot(1, 'a', -2), Spot(2, 'a', 0), Spot(2, 'b', 1), Spot(1, 'b', 2)];
    BottomHasList();
    MiddleSplits();
    ListOver(MIDDLE, 3, 1, 'a', 'b', BOTTOM, Entry(2, "0ba"), bottom);
    assert [Spot(1, 'a', -2)] + bottom + [Spot(1, 'b', 2)] == middle;
    TopSplits();
    ListOver(TOP, 3, 0, 'a', 'b', MIDDLE, Entry(3, "bba"), middle);
    assert [Spot(0, 'a', -3)] + middle + [Spot(0, 'b', 3)] ==
           [Spot(0, 'a', -3), Spot(1, 'a', -2), Spot(2, 'a', 0), Spot(2, 'b', 1), Spot(1, 'b', 2), Spot(0, 'b', 3)];
  }

  lemma TopGood()
    ensures Good(TOP, 3)
  {
    assert TOP[0].s[2] != TOP[1].s[2] && TOP[0].s[1] != TOP[2].s[1] && TOP[1].s[1] != TOP[2].s[1];
    assert TOP[0].s[0] != TOP[3].s[0] && TOP[1].s[0] != TOP[3].s[0] && TOP[2].s[0] != TOP[3].s[0];
  }

  lemma TopGroups()
    ensures Group(TOP, 0, 'b') == [Entry(3, "bba")]
    ensures |Group(TOP, 0, 'a')| == 3 && Masked(Group(TOP, 0, 'a'), 0) == MIDDLE
  {
    var t1, t2, t3 := TOP[1..], TOP[2..], TOP[3..];
    assert t1[1..] == t2 && t2[1..] == t3 && t3[1..] == [];
    assert Group(t3, 0, 'a') == [] && Group(t3, 0, 'b') == [Entry(3, "bba")];
    assert Group(t2, 0, 'a') == [Entry(2, "aba")] && Group(t2, 0, 'b') == [Entry(3, "bba")];
    assert Group(t1, 0, 'a') == [Entry(1, "aab"), Entry(2, "aba")] && Group(t1, 0, 'b') == [Entry(3, "bba")];
    var g := Group(TOP, 0, 'a');
    assert g == [Entry(0, "aaa"), Entry(1, "aab"), Entry(2, "aba")];
    assert Masked(g, 0)[0] == MIDDLE[0] && Masked(g, 0)[1] == MIDDLE[1] && Masked(g, 0)[2] == MIDDLE[2];
  }

  lemma DeepClass()
    ensures ClassOf(DEEP, 3) == TOP
  {
    assert ClassFrom(DEEP, 3, 4) == [];
    assert ClassFrom(DEEP, 3, 3) == [Entry(3, "bba")];
    assert ClassFrom(DEEP, 3, 2) == [Entry(2, "aba"), Entry(3, "bba")];
    assert ClassFrom(DEEP, 3, 1) == [Entry(1, "aab"), Entry(2, "aba"), Entry(3, "bba")];
  }

  lemma DeepUsable()
    ensures Usable(DEEP)
  {
    TopGood();
    assert TOP[0].s == DEEP[0] && TOP[1].s == DEEP[1] && TOP[2].s == DEEP[2] && TOP[3].s == DEEP[3];
    forall i, j | 0 <= i < j < 4 ensures DEEP[i] != DEEP[j] {
      assert TOP[i].s != TOP[j].s;
    }
  }

  /** Four keywords with groups nested two deep: "bba", keyword 3, is taken for keyword 2. */
  lemma DeepKeywordsMisread()
    ensures Usable(DEEP) && DEEP[3] == "bba" && Match(DEEP, "bba") == Answered(Hit(2))
  {
    DeepUsable();
    DeepClass();
    TopList();
    var list := [Spot(0, 'a', -3), Spot(1, 'a', -2), Spot(2, 'a', 0), Spot(2, 'b', 1), Spot(1, 'b', 2),
                 Spot(0, 'b', 3)];
    HasListIs(TOP, 3, list);
    DeepWalk(list);
    assert |DEEP[3]| == 3;
  }

  lemma DeepWalk(list: seq<Spot>)
    requires list == [Spot(0, 'a', -3), Spot(1, 'a', -2), Spot(2, 'a', 0), Spot(2, 'b', 1), Spot(1, 'b', 2),
                      Spot(0, 'b', 3)]
    ensures Walk(list, "bba", 0) == Hit(2)
  {
    assert Walk(list, "bba", 4) == Hit(2);
  }
}
