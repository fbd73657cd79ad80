/**
 The class LFLRUHashTable of src/LFLRUHashTable.h, called by one thread at a time, over its
 arrays: link words, elements, slots and the list fields of every thread.  Each method does to
 the arrays what `LruCache.Step` does to the cache they represent.

 A lone caller never meets a locked link word or slot, so the retry branches are left out and
 the conditions that would lead to them are asserted not to hold.
 */
module LruTable {
  import opened Index
  import opened IndexTable
  import opened IndexMap
  import opened IndexRemove
  import opened IndexEngine
  import opened LruRows
  import opened LruCache
  import opened LruTheorems
  import opened LinkChains
  import opened SlotRuns
  import LinkWords
  import SlotLocks
  import opened Sealing
  import opened Blocks

  const BUFFER := SlotLocks.BUFFER

  /** Overrun: the call stores a lock behind the last entry of its buffer. */
  datatype Reply = Overrun | Replied(res: Res)

  /** What a call leaves that adds no key, spelt out. */
  ghost function Plain(c: Cache, t: int, call: Call): Done
    requires 0 <= t < |c.rows|
  {
    var x := Found(c.g, call.k);
    if 0 <= x < |c.g.elems| then
      match call
      case CallGet(_) => Done(c.(rows := Touched(c.rows, t, x)), Got(c.g.elems[x].val))
      case CallInsert(_, _) => Done(c, Refused)
      case _ =>
        Done(c.(g := Table(c.g.slots, c.g.elems[x := c.g.elems[x].(val := call.v)]), rows := Touched(c.rows, t, x)),
             if call.CallSet? then Ok else Refused)
    else Done(c, if call.CallGet? then NotFound else Refused)
  }

  lemma StepHit(c: Cache, ix: Engine, home: int -> int, t: int, call: Call)
    requires Exact(ix, home) && Good(c, home) && Fits(c, t) && call.k in Keys(c.g)
    ensures Step(c, ix, t, call) == Plain(c, t, call)
  {
    FoundIs(c.g, home, call.k);
    var op := OpOf(c, t, call);
    ExactAt(ix, home, c.g, op);
    SeenEnded(c.g, home, op);
    ApplyHit(c.g, home, op, Seen(c.g, home, op));
  }

  lemma StepMiss(c: Cache, ix: Engine, home: int -> int, t: int, call: Call)
    requires Exact(ix, home) && Good(c, home) && Fits(c, t) && call.k !in Keys(c.g) && !Adds(call)
    ensures Step(c, ix, t, call) == Plain(c, t, call)
  {
    FoundIs(c.g, home, call.k);
    var op := OpOf(c, t, call);
    ExactAt(ix, home, c.g, op);
    SeenEnded(c.g, home, op);
    ApplyMiss(c.g, home, op, Seen(c.g, home, op));
  }

  lemma StepPlain(c: Cache, ix: Engine, home: int -> int, t: int, call: Call)
    requires Exact(ix, home) && Kept(c, home) && Fits(c, t) && (call.k in Keys(c.g) || !Adds(call))
    ensures Step(c, ix, t, call) == Plain(c, t, call) && !Evicts(c, t, call)
  {
    KeptIs(c, home);
    FoundIs(c.g, home, call.k);
    if call.k in Keys(c.g) {
      StepHit(c, ix, home, t, call);
    } else {
      StepMiss(c, ix, home, t, call);
    }
  }

  lemma StepOnAdd(c: Cache, ix: Engine, home: int -> int, t: int, call: Call)
    requires Exact(ix, home) && Kept(c, home) && Fits(c, t) && Adds(call) && call.k !in Keys(c.g)
    ensures Step(c, ix, t, call) == Done(Grown(c, ix, t, OpOf(c, t, call)), Ok)
  {
    KeptIs(c, home);
    ExactLawful(ix, home);
    GrownMeaning(c, ix, home, t, call);
  }

  /** After adding a key the cache lacks at most a spare element. */
  lemma AddedFacts(c: Cache, ix: Engine, home: int -> int, t: int, call: Call)
    requires Exact(ix, home) && Kept(c, home) && Fits(c, t) && Adds(call) && call.k !in Keys(c.g)
    ensures var c1 := Added(c, ix, t, OpOf(c, t, call));
            Almost(c1, home) && (Pool(c1, t) == [] <==> Evicts(c, t, call))
  {
    KeptIs(c, home);
    ExactLawful(ix, home);
    FoundIs(c.g, home, call.k);
    AddedNearly(c, ix, home, t, call);
    AddedRows(c, ix, home, t, call);
    AlmostIs(Added(c, ix, t, OpOf(c, t, call)), home);
  }

  /** What is left to do once the slots for a new key are held. */
  lemma AddedPlan(c: Cache, ix: Engine, home: int -> int, t: int, call: Call, locks: seq<int>, now: seq<int>)
    requires Exact(ix, home) && Kept(c, home) && Fits(c, t) && Adds(call) && call.k !in Keys(c.g)
    requires Probed(c.g, home, OpOf(c, t, call), locks) && Holding(c.g.slots, home(call.k), locks, now)
    ensures 0 <= home(call.k) < |c.g.slots| && 0 < |locks| <= |c.g.slots|
    ensures now == Locked(c.g.slots, home(call.k), |locks|)
    ensures var e := Spare(c, t);
            && 0 <= e < |c.g.elems|
            && Added(c, ix, t, OpOf(c, t, call)) ==
               Cache(Table(WriteBack(c.g.slots, home(call.k), locks[|locks| - 1 := e]),
                           c.g.elems[e := Elem(call.k, call.v)]),
                     c.threads, c.owned, c.rows[c.threads + t := Cut(c.rows[c.threads + t], 0)][t := [e] + c.rows[t]])
  {
    KeptIs(c, home);
    ProbedIs(c.g, home, OpOf(c, t, call), locks);
    HoldingIs(c.g.slots, home(call.k), locks, now);
    SpareFree(c, home, t);
    ApplyAdd(c.g, home, OpOf(c, t, call), locks);
    AddedIs(c, ix, home, t, call);
  }

  lemma StepAdds(c: Cache, ix: Engine, home: int -> int, t: int, call: Call)
    requires Exact(ix, home) && Kept(c, home) && Fits(c, t) && Adds(call)
    ensures Step(c, ix, t, call) == if call.k in Keys(c.g) then Plain(c, t, call)
            else Done(Grown(c, ix, t, OpOf(c, t, call)), Ok)
    ensures call.k in Keys(c.g) ==> !Evicts(c, t, call)
  {
    if call.k in Keys(c.g) {
      StepPlain(c, ix, home, t, call);
    } else {
      StepOnAdd(c, ix, home, t, call);
    }
  }

  /** Taking the spare element and linking it, before any eviction. */
  lemma AddedIs(c: Cache, ix: Engine, home: int -> int, t: int, call: Call)
    requires Exact(ix, home) && Kept(c, home) && Fits(c, t) && Adds(call) && Homes(home, |c.g.slots|)
    ensures Added(c, ix, t, OpOf(c, t, call)) ==
            Cache(Apply(c.g, home, OpOf(c, t, call)).t, c.threads, c.owned, Moved(c.rows, c.threads + t, 0, t))
  {
    KeptIs(c, home);
    ExactAt(ix, home, c.g, OpOf(c, t, call));
  }

  lemma EvictedIs(c: Cache, ix: Engine, home: int -> int, t: int)
    requires Exact(ix, home) && Almost(c, home) && 0 <= t < |c.rows| && t < c.threads && c.rows[t] != []
    ensures |c.rows| == 2 * c.threads && Steady(c.g, home) && Homes(home, |c.g.slots|)
    ensures 0 <= Tail(c, t) < |c.g.elems| && Tail(c, t) in c.g.slots
    ensures Evicted(c, ix, t) ==
            Cache(Apply(c.g, home, Remove(Tail(c, t))).t, c.threads, c.owned,
                  Moved(c.rows, t, |c.rows[t]| - 1, c.threads + t))
  {
    AlmostIs(c, home);
    SteadyIs(c.g, home);
    TailIndexed(c, home, t);
    ExactAt(ix, home, c.g, Remove(Tail(c, t)));
  }

  /** `Nearly` and `Sound`, unfolded only where asked for. */
  ghost predicate Almost(c: Cache, home: int -> int) {
    forall u {:trigger Look(u)} :: Look(u) ==> Nearly(c, home)
  }

  lemma AlmostIs(c: Cache, home: int -> int)
    ensures Almost(c, home) <==> Nearly(c, home)
  {
    assert Look(0);
  }

  ghost predicate Steady(g: Table, home: int -> int) {
    forall u {:trigger Look(u)} :: Look(u) ==> Sound(g, home)
  }

  lemma SteadyIs(g: Table, home: int -> int)
    ensures Steady(g, home) <==> Sound(g, home)
  {
    assert Look(0);
  }

  /** The operation meets more occupied slots than the lock buffer takes. */
  ghost predicate TooLong(g: Table, home: int -> int, op: Op)
    requires Homes(home, |g.slots|)
  {
    forall u {:trigger Look(u)} :: Look(u) ==> Depth(g, home, op) > BUFFER
  }

  /** The number of slots the operation locks. */
  ghost function Depth(g: Table, home: int -> int, op: Op): nat
    requires Homes(home, |g.slots|)
  {
    Need(g, op, KeyOf(g.elems, op), home(KeyOf(g.elems, op)), 0)
  }

  lemma TooLongIs(g: Table, home: int -> int, op: Op)
    requires Homes(home, |g.slots|)
    ensures TooLong(g, home, op) <==> Depth(g, home, op) > BUFFER
  {
    assert Look(0);
  }

  /** With fewer elements than entries of the buffer no call overruns it. */
  lemma FewFit(g: Table, home: int -> int, op: Op)
    requires Sound(g, home)
    ensures Depth(g, home, op) <= |g.elems| + 1
    ensures |g.elems| < BUFFER ==> !TooLong(g, home, op)
  {
    var k := KeyOf(g.elems, op);
    var i := FreeSlot(g, home(k));
    StopAtFree(g.elems, op, k, Contents(g.slots, home(k), i + 1));
    assert Depth(g, home, op) <= i + 1;
    TooLongIs(g, home, op);
  }

  /** `Search`, unfolded only where asked for, and the steps of the probing loop. */
  ghost predicate Searching(g: Table, k: int, start: int, locks: seq<int>, now: seq<int>) {
    forall u {:trigger Look(u)} :: Look(u) ==> Search(g, k, start, locks, now)
  }

  lemma SearchingIs(g: Table, k: int, start: int, locks: seq<int>, now: seq<int>)
    ensures Searching(g, k, start, locks, now) <==> Search(g, k, start, locks, now)
  {
    assert Look(0);
  }

  lemma SearchFrom(g: Table, k: int, start: int)
    requires 0 <= start < |g.slots| && WellTabled(g)
    ensures IndexTable.Valid(g.slots[start], |g.elems|) && g.slots[start] != LOCK
    ensures Searching(g, k, start, [g.slots[start]], g.slots[start := LOCK])
  {
    SearchStart(g, k, start);
  }

  lemma SearchNext(g: Table, op: Op, k: int, start: int, locks: seq<int>, now: seq<int>, p: int)
    requires Searching(g, k, start, locks, now) && locks != [] && !Matches(g.elems, k, locks[|locks| - 1])
    requires p == At(start, |locks| - 1, |g.slots|)
    ensures |locks| < |g.slots| && 0 <= start < |g.slots| && Need(g, op, k, start, 0) > |locks| && 0 <= p < |g.slots|
    ensures var q := (p + 1) % |g.slots|;
            && 0 <= q < |now| && q == At(start, |locks|, |g.slots|)
            && IndexTable.Valid(now[q], |g.elems|) && now[q] != LOCK
            && Searching(g, k, start, locks + [now[q]], now[q := LOCK])
  {
    SearchingIs(g, k, start, locks, now);
    SearchOn(g, op, k, start, locks, now, p);
  }

  lemma SearchDone(g: Table, op: Op, k: int, start: int, locks: seq<int>, now: seq<int>)
    requires Searching(g, k, start, locks, now) && locks != [] && Matches(g.elems, k, locks[|locks| - 1]) && !op.Remove?
    ensures 0 <= start < |g.slots| && Need(g, op, k, start, 0) == |locks|
  {
    SearchingIs(g, k, start, locks, now);
    NeedsThis(g, op, k, start, |locks| - 1);
  }

  /** cs are the slots op has locked; see `Ended`. */
  ghost predicate Probed(g: Table, home: int -> int, op: Op, cs: seq<int>) {
    forall u {:trigger Look(u)} :: Look(u) ==> Ended(g, home, op, cs)
  }

  /** now is slots with those from start on locked whose contents are cs. */
  ghost predicate Holding(slots: seq<int>, start: int, cs: seq<int>, now: seq<int>) {
    forall u {:trigger Look(u)} :: Look(u) ==> HoldingNow(slots, start, cs, now)
  }

  ghost predicate HoldingNow(slots: seq<int>, start: int, cs: seq<int>, now: seq<int>) {
    && 0 <= start < |slots| && 0 < |cs| <= |slots|
    && now == Locked(slots, start, |cs|) && WriteBack(slots, start, cs) == slots
  }

  lemma HoldingIs(slots: seq<int>, start: int, cs: seq<int>, now: seq<int>)
    ensures Holding(slots, start, cs, now) <==> HoldingNow(slots, start, cs, now)
  {
    assert Look(0);
  }

  lemma ProbedIs(g: Table, home: int -> int, op: Op, cs: seq<int>)
    ensures Probed(g, home, op, cs) <==> Ended(g, home, op, cs)
  {
    assert Look(0);
  }

  /** The call writes past the end of its lock buffer. */
  ghost predicate Overruns(c: Cache, ix: Engine, home: int -> int, t: int, call: Call)
    requires Fits(c, t) && Homes(home, |c.g.slots|)
  {
    TooLong(c.g, home, OpOf(c, t, call)) || EvictionOverruns(c, ix, home, t, call)
  }

  ghost predicate EvictionOverruns(c: Cache, ix: Engine, home: int -> int, t: int, call: Call)
    requires Fits(c, t) && Homes(home, |c.g.slots|)
  {
    Evicts(c, t, call) &&
    var c1 := Added(c, ix, t, OpOf(c, t, call));
    Homes(home, |c1.g.slots|) && TooLong(c1.g, home, Remove(Tail(c1, t)))
  }

  /** Cutting a row does not move the elements of other rows. */
  lemma CutElsewhere(rows: seq<seq<int>>, b: int, x: int)
    requires Disjoint(rows) && InRow(rows, b, 0) && Somewhere(rows, x) && PlaceOf(rows, x).row != b
    ensures var r := rows[b := Cut(rows[b], 0)]; Somewhere(r, x) && PlaceOf(r, x) == PlaceOf(rows, x)
  {
    CutApart(rows, b, 0);
    PlaceIs(rows[b := Cut(rows[b], 0)], PlaceOf(rows, x), x);
  }

  /** The first half of a removal needs no more slots than the whole. */
  lemma NeedFirst(g: Table, home: int -> int, e: int, start: int, cs: seq<int>, d: nat)
    requires Running(g, home, e, start, cs, d)
    ensures var k := g.elems[e].key; Need(g, Get(k), k, start, 0) <= d + 1
  {
    var k := g.elems[e].key;
    ContentsPrefix(g.slots, start, d + 1, |cs|);
    ProbePrefix(g.elems, k, cs, d + 1);
    assert Stop(g.elems, Get(k), k, Contents(g.slots, start, d + 1));
  }

  lemma PutBack(rows: seq<seq<int>>, b: int)
    requires InRow(rows, b, 0)
    ensures rows[b := Cut(rows[b], 0)][b := [rows[b][0]] + Cut(rows[b], 0)] == rows
  {
    assert [rows[b][0]] + Cut(rows[b], 0) == rows[b];
  }

  /** Touching keeps a loose element loose. */
  lemma TouchLoose(rows: seq<seq<int>>, t: int, x: int, e: int)
    requires Disjoint(rows) && Somewhere(rows, x) && 0 <= t < |rows| && Loose(rows, e)
    ensures Loose(Touched(rows, t, x), e)
  {
    var p, r := PlaceOf(rows, x), Touched(rows, t, x);
    if Movable(rows[p.row], p.pos) {
      forall a, i | InRow(r, a, i) ensures r[a][i] != e {
        MovedFrom(rows, p.row, p.pos, t, a, i);
        var o := LruRows.Origin(p.row, p.pos, t, a, i);
        assert rows[o.0][o.1] == r[a][i];
      }
    }
  }

  /** Popping an element, touching another and pushing the first back is just touching. */
  lemma TouchWithout(rows: seq<seq<int>>, b: int, t: int, x: int)
    requires Disjoint(rows) && InRow(rows, b, 0) && Somewhere(rows, x) && PlaceOf(rows, x).row != b && 0 <= t < |rows|
    requires t != b
    ensures var r := Touched(rows[b := Cut(rows[b], 0)], t, x);
            r[b := [rows[b][0]] + r[b]] == Touched(rows, t, x) && Loose(r, rows[b][0])
  {
    CutElsewhere(rows, b, x);
    CutApart(rows, b, 0);
    TouchLoose(rows[b := Cut(rows[b], 0)], t, x, rows[b][0]);
    assert [rows[b][0]] + Cut(rows[b], 0) == rows[b];
    var p := PlaceOf(rows, x);
    if Movable(rows[p.row], p.pos) { MovedWithout(rows, b, p.row, p.pos, t); }
  }

  lemma MovedWithout(rows: seq<seq<int>>, b: int, a: int, i: int, t: int)
    requires InRow(rows, b, 0) && InRow(rows, a, i) && a != b && t != b && 0 <= t < |rows|
    ensures var r := Moved(rows[b := Cut(rows[b], 0)], a, i, t);
            r[b := [rows[b][0]] + r[b]] == Moved(rows, a, i, t)
  {
    assert [rows[b][0]] + Cut(rows[b], 0) == rows[b];
  }

  /** A hit while the spare element is off its list. */
  lemma HitWhilePopped(c: Cache, home: int -> int, t: int, k: int, rows: seq<seq<int>>)
    requires Kept(c, home) && Fits(c, t) && k in Keys(c.g)
    requires rows == c.rows[c.threads + t := Cut(c.rows[c.threads + t], 0)]
    ensures var x, e, b := Found(c.g, k), Spare(c, t), c.threads + t;
            && Somewhere(rows, x) && PlaceOf(rows, x).row < c.threads
            && var r := Touched(rows, t, x);
               r[b := [e] + r[b]] == Touched(c.rows, t, x) && Loose(r, e)
  {
    KeptIs(c, home);
    FoundPlace(c, home, k);
    CutElsewhere(c.rows, c.threads + t, Found(c.g, k));
    TouchWithout(c.rows, c.threads + t, t, Found(c.g, k));
  }

  /** A key that is found belongs to an element on some list. */
  lemma FoundPlace(c: Cache, home: int -> int, k: int)
    requires Kept(c, home) && k in Keys(c.g)
    ensures Somewhere(c.rows, Found(c.g, k)) && PlaceOf(c.rows, Found(c.g, k)).row < c.threads
  {
    KeptIs(c, home);
    FoundIs(c.g, home, k);
    assert Listed(c, Found(c.g, k));
    PlaceOnList(c, home, Found(c.g, k));
  }

  lemma SpareIs(c: Cache, home: int -> int, t: int)
    requires Kept(c, home) && 0 <= t < c.threads
    ensures Fits(c, t) && 0 <= Spare(c, t) < |c.g.elems| && Homes(home, |c.g.slots|)
  {
    KeptIs(c, home);
    SpareFree(c, home, t);
  }

  /** The next call finds the cache in order exactly when this one evicts safely. */
  lemma StepKept(c: Cache, ix: Engine, home: int -> int, t: int, call: Call)
    requires Exact(ix, home) && Kept(c, home) && Fits(c, t)
    ensures Kept(Step(c, ix, t, call).c, home) <==> Safe(c, ix, home, t, call)
  {
    KeptIs(c, home);
    ExactLawful(ix, home);
    CallMeaning(c, ix, home, t, call);
    KeptIs(Step(c, ix, t, call).c, home);
  }

  // ---- the state the constructor builds ----

  /** The link word of element x once the free lists of the first t threads are closed. */
  function StartWord(x: int, per: int, t: int): Word
    requires per > 0
  {
    LinkWords.Word(END, if x < t * per && x % per == per - 1 then END else x + 1)
  }

  /** Closing the free list of thread t. */
  lemma LastOf(n: int, t: int, per: int)
    requires 0 <= t && per > 0
    ensures (t + 1) * per == t * per + per
    ensures (t * per + per - 1) % per == per - 1
    ensures forall x {:trigger x % per} :: t * per <= x < t * per + per && x % per == per - 1 ==> x == t * per + per - 1
  {
    Quotient(t * per + per - 1, t, per - 1, per);
    forall x | t * per <= x < t * per + per && x % per == per - 1 ensures x == t * per + per - 1 {
      Quotient(x, t, x - t * per, per);
    }
  }

  lemma StartPool(words: seq<Word>, threads: nat, per: nat, t: int)
    requires per > 0 && 0 <= t < threads && threads * per <= |words| <= END
    requires forall x {:trigger words[x]} :: 0 <= x < |words| ==> words[x] == StartWord(x, per, threads)
    ensures Pooled(words, seq(per, i => t * per + i))
  {
    var row := seq(per, i => t * per + i);
    forall i | 0 <= i < |row| ensures 0 <= row[i] < |words| && words[row[i]] == LinkWords.Word(END, Next(row, i)) {
      InBlocks(t, i, per, threads);
      Quotient(t * per + i, t, i, per);
      assert row[i] == t * per + i;
    }
  }

  lemma StartLaid(words: seq<Word>, ends: seq<Ends>, threads: nat, per: nat)
    requires per > 0 && threads > 0 && threads * per <= |words| <= END && |ends| == threads
    requires forall x {:trigger words[x]} :: 0 <= x < |words| ==> words[x] == StartWord(x, per, threads)
    requires forall t {:trigger ends[t]} :: 0 <= t < threads ==> ends[t] == Ends(END, END, t * per)
    ensures Rep(words, StartRows(threads, per), threads, ends)
  {
    var rows := StartRows(threads, per);
    StartPartition(threads, per);
    forall a | 0 <= a < |rows| ensures RowRep(words, rows, threads, a) {
      if a >= threads { StartPool(words, threads, per, a - threads); }
    }
    forall t | 0 <= t < threads ensures ends[t] == EndsOf(rows, threads, t) {
      assert rows[t] == [] && rows[threads + t][0] == t * per;
    }
  }

  /** The word of an element of an LRU list: END tells whether it is first or last. */
  lemma OwnLinks(words: seq<Word>, rows: seq<seq<int>>, threads: int, ends: seq<Ends>, a: int, i: int)
    requires Laid(words, rows, threads, ends) && 0 <= a < threads && InRow(rows, a, i)
    ensures var row := rows[a];
            && 0 <= row[i] < |words| && words[row[i]] == LinkWords.Word(Prev(row, i), Next(row, i))
            && (Prev(row, i) == END <==> i == 0) && (Next(row, i) == END <==> i == |row| - 1)
  {
    LaidOut(words, rows, threads, ends);
    assert RowRep(words, rows, threads, a);
    var row := rows[a];
    assert words[row[i]] == LinkWords.Word(Prev(row, i), Next(row, i));
    if i > 0 { assert 0 <= row[i - 1] < |words|; }
    if i < |row| - 1 { assert 0 <= row[i + 1] < |words|; }
  }

  /** The words around an inner element, which are three different ones. */
  lemma InnerLinks(words: seq<Word>, rows: seq<seq<int>>, threads: int, ends: seq<Ends>, a: int, i: int)
    requires Laid(words, rows, threads, ends) && 0 <= a < threads && InRow(rows, a, i) && 0 < i < |rows[a]| - 1
    ensures var row := rows[a];
            && 0 <= row[i - 1] < |words| && words[row[i - 1]].right == row[i]
            && 0 <= row[i + 1] < |words| && words[row[i + 1]].left == row[i]
            && (words[row[i - 1]].left == END <==> i == 1)
            && (words[row[i + 1]].right == END <==> i == |row| - 2)
            && row[i - 1] != row[i] && row[i] != row[i + 1] && row[i - 1] != row[i + 1]
  {
    OwnLinks(words, rows, threads, ends, a, i - 1);
    OwnLinks(words, rows, threads, ends, a, i + 1);
    LaidOut(words, rows, threads, ends);
    DisjointFrom(rows, a, i - 1, a, i);
    DisjointFrom(rows, a, i, a, i + 1);
    DisjointFrom(rows, a, i - 1, a, i + 1);
  }

  lemma BridgedLaid(words: seq<Word>, rows: seq<seq<int>>, threads: int, ends: seq<Ends>, a: int, i: int)
    requires Laid(words, rows, threads, ends) && 0 <= a < threads && InRow(rows, a, i) && 0 < i < |rows[a]| - 1
    ensures 0 <= rows[a][i] < |words|
    ensures var x, w := rows[a][i], words[rows[a][i]];
            && 0 <= w.left < |words| && 0 <= w.right < |words|
            && Laid(Bridged(words, x), rows[a := Cut(rows[a], i)], threads, ends)
                 && Loose(rows[a := Cut(rows[a], i)], x)
  {
    LaidOut(words, rows, threads, ends);
    BridgedRep(words, rows, threads, ends, a, i);
    LaidOut(Bridged(words, rows[a][i]), rows[a := Cut(rows[a], i)], threads, ends);
  }

  class LFLRUHashTable {
    const home: int -> int
    const threads: nat
    const links: array<Word>
    const elems: array<Elem>
    const slots: array<int>
    const lists: array<Ends>
    ghost const owned: int
    ghost const ix: Engine
    ghost var rows: seq<seq<int>>

    /** The arrays hold the lists of `rows`. */
    ghost predicate Valid()
      reads this, links, lists
    {
      && 0 < threads && links.Length == elems.Length < slots.Length && elems.Length <= LOCK
      && Laid(links[..], rows, threads, lists[..]) && |rows| == 2 * threads && lists.Length == threads
      && Homes(home, slots.Length)
    }

    ghost function Abs(): Cache
      reads this, elems, slots
    {
      Cache(Table(slots[..], elems[..]), threads, owned, rows)
    }

    ghost predicate Ready()
      reads this, links, lists, elems, slots
    {
      Valid() && Kept(Abs(), home) && Exact(ix, home)
    }

    /** The constructor; the source aborts unless elements are fewer than slots. */
    constructor (numElements: nat, hashSize: nat, numThreads: nat, hasher: int -> int)
      requires 0 < numThreads <= numElements < hashSize && numElements <= LOCK && Homes(hasher, hashSize)
      ensures Ready() && fresh(links) && fresh(elems) && fresh(slots) && fresh(lists)
      ensures home == hasher && threads == numThreads
      ensures Abs() == Start(numThreads, numElements / numThreads, seq(numElements, _ => Elem(0, 0)), hashSize)
    {
      home, threads, ix := hasher, numThreads, Probing(hasher);
      var per := numElements / numThreads;
      WholeBlocks(numElements, numThreads);
      owned := numThreads * per;
      links := new Word[numElements](i => LinkWords.Word(END, i + 1));
      elems := new Elem[numElements](_ => Elem(0, 0));
      slots := new int[hashSize](_ => FREE);
      lists := new Ends[numThreads](t => Ends(END, END, t * per));
      rows := StartRows(numThreads, per);
      new;
      CloseFree(per);
      StartLaid(links[..], lists[..], numThreads, per);
      LaidOut(links[..], rows, threads, lists[..]);
      StartGood(numThreads, per, elems[..], hashSize, home);
      assert Abs().g.slots == seq(hashSize, _ => FREE) && elems[..] == seq(numElements, _ => Elem(0, 0));
      KeptIs(Abs(), home);
      ProbingExact(home);
    }

    /** Each thread's block of elements becomes a list of its own. */
    method CloseFree(per: nat)
      requires per > 0 && threads >= 0 && threads * per <= links.Length
      requires forall x {:trigger links[x]} :: 0 <= x < links.Length ==> links[x] == LinkWords.Word(END, x + 1)
      modifies links
      ensures forall x {:trigger links[x]} :: 0 <= x < links.Length ==> links[x] == StartWord(x, per, threads)
    {
      var t := 0;
      while t < threads
        invariant 0 <= t <= threads
        invariant forall x {:trigger links[x]} :: 0 <= x < links.Length ==> links[x] == StartWord(x, per, t)
      {
        InBlocks(t, per - 1, per, threads);
        LastOf(links.Length, t, per);
        links[t * per + per - 1] := links[t * per + per - 1].(right := END);
        t := t + 1;
      }
    }

    // ---- link words ----

    method UnlinkElement(x: int, ghost p: Place) returns (ok: bool)
      requires Valid() && Holds(rows, p, x) && p.row < threads
      modifies links, this`rows
      ensures Valid() && ok == Movable(old(rows)[p.row], p.pos)
      ensures rows == if ok then old(rows)[p.row := Cut(old(rows)[p.row], p.pos)] else old(rows)
      ensures ok ==> Loose(rows, x)
    {
      ghost var row := rows[p.row];
      ghost var words := links[..];
      OwnLinks(words, rows, threads, lists[..], p.row, p.pos);
      var target := links[x];
      if target.left == END || target.right == END {
        return false;
      }
      InnerLinks(words, rows, threads, lists[..], p.row, p.pos);
      links[x] := LinkWords.Word(LinkWords.LOCK, LinkWords.LOCK);
      var left, right := links[target.left], links[target.right];
      if left.left == END {
        links[x] := target;
        assert links[..] == words;
        return false;
      }
      assert left.right == x;
      links[target.left] := left.(right := LinkWords.LOCK);
      if right.right == END {
        links[x] := target;
        links[target.left] := left;
        assert links[..] == words;
        return false;
      }
      assert right.left == x;
      links[target.right] := right.(left := LinkWords.LOCK);
      BridgeOver(x, target, left, right, words);
      BridgedLaid(words, rows, threads, lists[..], p.row, p.pos);
      rows := rows[p.row := Cut(row, p.pos)];
      return true;
    }

    /** All three words are locked: the neighbours are linked to each other and the element is free. */
    method BridgeOver(x: int, target: Word, left: Word, right: Word, ghost words: seq<Word>)
      requires 0 <= x < links.Length == |words| && 0 <= target.left < links.Length && 0 <= target.right < links.Length
      requires x != target.left && x != target.right && target.left != target.right
      requires words[x] == target && words[target.left] == left && words[target.right] == right
      requires forall y {:trigger links[y]} ::
                 0 <= y < links.Length && y != x && y != target.left && y != target.right ==>
                 links[y] == words[y]
      modifies links
      ensures links[..] == Bridged(words, x)
    {
      links[target.left] := left.(right := target.right);
      links[target.right] := right.(left := target.left);
      links[x] := LinkWords.Word(END, END);
    }

    method LinkHead(t: int, x: int)
      requires Valid() && 0 <= t < threads && Loose(rows, x) && 0 <= x < links.Length
      modifies links, lists, this`rows
      ensures Valid() && rows == old(rows)[t := [x] + old(rows)[t]]
    {
      LaidOut(links[..], rows, threads, lists[..]);
      ghost var words, ends := links[..], lists[..];
      HeadedRep(words, rows, threads, ends, t, x);
      var head := lists[t].head;
      links[x] := LinkWords.Word(END, head);
      if head != END {
        links[head] := links[head].(left := x);
      } else {
        lists[t] := lists[t].(tail := x);
      }
      lists[t] := lists[t].(head := x);
      assert links[..] == Headed(words, x, head);
      assert lists[..] == ends[t := ends[t].(head := x, tail := if head == END then x else ends[t].tail)];
      rows := rows[t := [x] + rows[t]];
      LaidOut(links[..], rows, threads, lists[..]);
    }

    method UnlinkTail(t: int) returns (x: int)
      requires Valid() && 0 <= t < threads && rows[t] != []
      modifies links, lists, this`rows
      ensures Valid() && x == old(rows)[t][|old(rows)[t]| - 1] && 0 <= x < links.Length
      ensures rows == old(rows)[t := Cut(old(rows)[t], |old(rows)[t]| - 1)] && Loose(rows, x)
    {
      LaidOut(links[..], rows, threads, lists[..]);
      ghost var words, ends := links[..], lists[..];
      TrimmedRep(words, rows, threads, ends, t);
      x := lists[t].tail;
      var word := links[x];
      assert word.right == END && word.left != LinkWords.LOCK;
      if word.left != END {
        assert links[word.left].right == x;
        links[word.left] := links[word.left].(right := END);
        lists[t] := lists[t].(tail := word.left);
      } else {
        lists[t] := lists[t].(tail := END);
        lists[t] := lists[t].(head := END);
      }
      links[x] := LinkWords.Word(END, END);
      assert links[..] == Trimmed(words, x);
      assert lists[..] == ends[t := CutEnds(ends[t], words[x].left)];
      rows := rows[t := Cut(rows[t], |rows[t]| - 1)];
      LaidOut(links[..], rows, threads, lists[..]);
    }

    method PopFree(t: int) returns (e: int)
      requires Valid() && 0 <= t < threads && rows[threads + t] != []
      modifies lists, this`rows
      ensures Valid() && e == old(rows)[threads + t][0] && 0 <= e < links.Length
      ensures rows == old(rows)[threads + t := Cut(old(rows)[threads + t], 0)] && Loose(rows, e)
    {
      LaidOut(links[..], rows, threads, lists[..]);
      PoppedRep(links[..], rows, threads, lists[..], t);
      ghost var ends := lists[..];
      e := lists[t].free;
      lists[t] := lists[t].(free := links[e].right);
      assert lists[..] == ends[t := ends[t].(free := links[e].right)];
      rows := rows[threads + t := Cut(rows[threads + t], 0)];
      LaidOut(links[..], rows, threads, lists[..]);
    }

    method PushFree(t: int, e: int)
      requires Valid() && 0 <= t < threads && Loose(rows, e) && 0 <= e < links.Length
      modifies links, lists, this`rows
      ensures Valid() && rows == old(rows)[threads + t := [e] + old(rows)[threads + t]]
    {
      LaidOut(links[..], rows, threads, lists[..]);
      PushedRep(links[..], rows, threads, lists[..], t, e);
      ghost var words, ends := links[..], lists[..];
      links[e] := LinkWords.Word(END, lists[t].free);
      lists[t] := lists[t].(free := e);
      assert links[..] == words[e := LinkWords.Word(END, ends[t].free)];
      assert lists[..] == ends[t := ends[t].(free := e)];
      rows := rows[threads + t := [e] + rows[threads + t]];
      LaidOut(links[..], rows, threads, lists[..]);
    }

    /** What every hit does: move the element to the head of the caller's list if it is not near
        an end of its own. */
    method Touch(t: int, x: int)
      requires Valid() && 0 <= t < threads && Somewhere(rows, x) && PlaceOf(rows, x).row < threads
      modifies links, lists, this`rows
      ensures Valid() && rows == Touched(old(rows), t, x)
    {
      LaidOut(links[..], rows, threads, lists[..]);
      ghost var p := PlaceOf(rows, x);
      assert RowRep(links[..], rows, threads, p.row);
      assert 0 <= rows[p.row][p.pos] < links.Length;
      var ok := UnlinkElement(x, p);
      if ok { LinkHead(t, x); }
    }

    // ---- slots ----

    method LockSlot(p: int) returns (x: int)
      requires 0 <= p < slots.Length && slots[p] != LOCK
      modifies slots
      ensures x == old(slots[p]) && slots[..] == old(slots[..])[p := LOCK]
    {
      x := slots[p];
      slots[p] := LOCK;
    }

    method Unlock(start: int, cs: seq<int>, ghost was: seq<int>)
      requires 0 <= start < slots.Length && 0 < |cs| <= slots.Length == |was|
      requires slots[..] == Locked(was, start, |cs|)
      modifies slots
      ensures slots[..] == WriteBack(was, start, cs)
    {
      var p, i := start, 0;
      assert cs[..0] + seq(|cs|, _ => LOCK) == seq(|cs|, _ => LOCK);
      while i < |cs|
        invariant 0 <= i <= |cs|
        invariant i < |cs| ==> p == At(start, i, slots.Length)
        invariant slots[..] == Unlocked(was, start, cs, i)
      {
        UnlockNext(was, start, cs, i);
        slots[p] := cs[i];
        p := if p + 1 == slots.Length then 0 else p + 1;
        i := i + 1;
      }
      assert cs[..|cs|] + seq(0, _ => LOCK) == cs;
    }

    /** The probing loop of every operation.  The source aborts when its depth has reached the size
        of the buffer, but by then it has stored behind the end: that store, not the abort, is
        where the loop gives up here. */
    method Acquire(k: int, op: Op) returns (locks: seq<int>, overrun: bool)
      requires WellTabled(Table(slots[..], elems[..])) && Homes(home, slots.Length) && !op.Remove?
      modifies slots
      ensures var g := old(Table(slots[..], elems[..]));
              && (overrun <==> Need(g, op, k, home(k), 0) > BUFFER)
              && (!overrun ==> |locks| == Need(g, op, k, home(k), 0) && Searching(g, k, home(k), locks, slots[..])
                               && |locks| > 0 && Matches(g.elems, k, locks[|locks| - 1]))
    {
      ghost var g := Table(slots[..], elems[..]);
      var n, start := slots.Length, home(k);
      var p := start;
      SearchFrom(g, k, start);
      var x := LockSlot(p);
      locks, overrun := [x], false;
      while x != FREE && elems[x].key != k
        invariant 0 < |locks| <= BUFFER && |locks| <= n && locks[|locks| - 1] == x && p == At(start, |locks| - 1, n)
        invariant IndexTable.Valid(x, elems.Length) && !overrun
        invariant Searching(g, k, start, locks, slots[..])
        decreases n - |locks|
      {
        SearchNext(g, op, k, start, locks, slots[..], p);
        p := (p + 1) % n;
        assert |locks| - 1 < BUFFER;  // no abort yet
        if |locks| == BUFFER {
          overrun := true;
          return;
        }
        x := LockSlot(p);
        locks := locks + [x];
      }
      SearchDone(g, op, k, start, locks, slots[..]);
    }

    /** The second half of removeFromHashPos: lock on to the next free slot and let elements
        move back into the hole. */
    method Backshift(start: int, locks0: seq<int>, ghost g: Table, ghost cs: seq<int>, ghost d: nat)
      returns (overrun: bool, locks: seq<int>)
      requires g.elems == elems[..] && |g.slots| == slots.Length && Closed(g.elems, cs) && d + 1 < |cs|
      requires locks0 == cs[..d + 1] && Hold(g, start, cs, d + 1, slots[..]) && d < BUFFER
      modifies slots
      ensures overrun <==> |cs| > BUFFER
      ensures !overrun ==> |locks| == |cs| && slots[..] == Locked(g.slots, start, |cs|)
                           && locks == Shift(g.elems, home, start, |g.slots|, cs, d, d + 1)
    {
      var n, hole := slots.Length, |locks0| - 1;
      var deleted := At(start, hole, n);
      ShiftStarts(g, home, start, cs, d, locks0, slots[..], deleted);
      var p := (deleted + 1) % n;
      if |locks0| == BUFFER { return true, locks0; }
      var x := LockSlot(p);
      overrun, locks := ShiftLoop(start, locks0 + [x], hole, p, g, cs, d);
    }

    method ShiftLoop(start: int, locks0: seq<int>, hole0: int, p0: int, ghost g: Table, ghost cs: seq<int>,
                     ghost d: nat)
      returns (overrun: bool, locks: seq<int>)
      requires g.elems == elems[..] && |g.slots| == slots.Length
      requires Shifting(g, home, start, cs, d, locks0, hole0, slots[..]) && |locks0| <= BUFFER
      requires p0 == At(start, |locks0| - 1, slots.Length)
      modifies slots
      ensures overrun <==> |cs| > BUFFER
      ensures !overrun ==> |locks| == |cs| && slots[..] == Locked(g.slots, start, |cs|)
                           && locks == Shift(g.elems, home, start, |g.slots|, cs, d, d + 1)
    {
      var n, p, hole, deleted := slots.Length, p0, hole0, At(start, hole0, slots.Length);
      locks := locks0;
      var x := locks[|locks| - 1];
      while x != FREE
        invariant 0 <= hole && hole + 1 < |locks| <= BUFFER && |locks| <= |cs| && locks[|locks| - 1] == x
        invariant p == At(start, |locks| - 1, n) && deleted == At(start, hole, n)
        invariant Shifting(g, home, start, cs, d, locks, hole, slots[..])
        decreases |cs| - |locks|
      {
        ghost var locks', hole' := ShiftsOn(g, home, start, cs, d, locks, hole, slots[..], p);
        if home(elems[x].key) <= deleted {
          locks := locks[hole := x];
          hole := |locks| - 1;
          deleted := p;
        }
        assert locks == locks' && hole == hole';
        p := (p + 1) % n;
        if |locks| == BUFFER { return true, locks; }
        x := LockSlot(p);
        locks := locks + [x];
      }
      ShiftEnds(g, home, start, cs, d, locks, hole, slots[..]);
      locks := locks[hole := FREE];
      overrun := false;
    }

    /** removeFromHashPos. */
    method RemoveFromHash(e: int) returns (overrun: bool, found: bool)
      requires 0 <= e < elems.Length && Steady(Table(slots[..], elems[..]), home) && e in slots[..]
      requires Homes(home, slots.Length)
      modifies slots
      ensures var g := old(Table(slots[..], elems[..]));
              && (overrun <==> Need(g, Remove(e), g.elems[e].key, home(g.elems[e].key), 0) > BUFFER)
              && (!overrun ==> found && Table(slots[..], elems[..]) == Apply(g, home, Remove(e)).t)
    {
      ghost var g := Table(slots[..], elems[..]);
      var k := elems[e].key;
      SteadyIs(g, home);
      ghost var start, cs, d := RunIs(g, home, e);
      NeedFirst(g, home, e, start, cs, d);
      var locks;
      locks, overrun := Acquire(k, Index.Get(k));
      if overrun { return true, false; }
      SearchingIs(g, k, start, locks, slots[..]);
      FirstHalf(g, home, e, start, cs, d, locks, slots[..]);
      found := locks[|locks| - 1] != FREE;
      overrun, locks := Backshift(home(k), locks, g, cs, d);
      if overrun { return true, false; }
      Unlock(home(k), locks, g.slots);
    }

    // ---- the operations ----

    /** Probe for the key of op and hold the slots met; x is the element found, or FREE. */
    method Begin(op: Op, ghost c: Cache) returns (x: int, locks: seq<int>, overrun: bool)
      requires c.g == Table(slots[..], elems[..]) && Kept(c, home) && !op.Remove? && Homes(home, slots.Length)
      modifies slots
      ensures overrun <==> TooLong(c.g, home, op)
      ensures !overrun ==> Probed(c.g, home, op, locks) && Holding(c.g.slots, home(op.k), locks, slots[..])
      ensures !overrun ==>
                x == Found(c.g, op.k) && (x == FREE <==> op.k !in Keys(c.g)) && (x != FREE ==> 0 <= x < elems.Length)
    {
      KeptIs(c, home);
      TooLongIs(c.g, home, op);
      locks, overrun := Acquire(op.k, op);
      x := FREE;
      if !overrun {
        SearchingIs(c.g, op.k, home(op.k), locks, slots[..]);
        SearchEnded(c.g, home, op, locks, slots[..]);
        ProbedIs(c.g, home, op, locks);
        SearchHolds(c.g, op.k, home(op.k), locks, slots[..]);
        HoldingIs(c.g.slots, home(op.k), locks, slots[..]);
        EndsFound(c.g, home, op, locks);
        x := locks[|locks| - 1];
      }
    }

    /** Give the slots back as they were. */
    method Release(k: int, locks: seq<int>, ghost was: seq<int>)
      requires Holding(was, home(k), locks, slots[..])
      modifies slots
      ensures slots[..] == was
    {
      HoldingIs(was, home(k), locks, slots[..]);
      Unlock(home(k), locks, was);
    }

    /** The end of a hit: give the slots back, then move the element. */
    method Hit(t: int, k: int, x: int, locks: seq<int>, ghost c: Cache)
      requires Valid() && 0 <= t < threads && Kept(c, home) && c.threads == threads && rows == c.rows
      requires k in Keys(c.g) && x == Found(c.g, k) && Holding(c.g.slots, home(k), locks, slots[..])
      modifies links, lists, slots, this`rows
      ensures Valid() && rows == Touched(c.rows, t, x) && slots[..] == c.g.slots
    {
      FoundPlace(c, home, k);
      Release(k, locks, c.g.slots);
      Touch(t, x);
    }

    method ReadFound(t: int, k: int, x: int, locks: seq<int>, ghost c: Cache) returns (res: Res)
      requires Valid() && Kept(c, home) && Fits(c, t) && c.threads == threads && c.owned == owned && rows == c.rows
      requires elems[..] == c.g.elems && Holding(c.g.slots, home(k), locks, slots[..])
      requires x == Found(c.g, k) && (x == FREE <==> k !in Keys(c.g)) && (x != FREE ==> 0 <= x < elems.Length)
      modifies links, lists, slots, this`rows
      ensures Valid() && Done(Abs(), res) == Plain(c, t, CallGet(k))
    {
      if x == FREE {
        Release(k, locks, c.g.slots);
        res := NotFound;
      } else {
        var v := elems[x].val;
        Hit(t, k, x, locks, c);
        res := Got(v);
      }
    }

    method Lookup(t: int, k: int, ghost c: Cache) returns (r: Reply)
      requires Valid() && Kept(c, home) && c == Abs() && Fits(c, t)
      modifies links, lists, slots, this`rows
      ensures r.Overrun? <==> TooLong(c.g, home, OpOf(c, t, CallGet(k)))
      ensures r.Replied? ==> Valid() && Done(Abs(), r.res) == Plain(c, t, CallGet(k))
    {
      var x, locks, overrun := Begin(Index.Get(k), c);
      if overrun {
        r := Overrun;
      } else {
        var res := ReadFound(t, k, x, locks, c);
        r := Replied(res);
      }
    }

    method WriteFound(t: int, k: int, v: int, x: int, locks: seq<int>, ghost c: Cache) returns (res: Res)
      requires Valid() && Kept(c, home) && Fits(c, t) && c.threads == threads && c.owned == owned && rows == c.rows
      requires elems[..] == c.g.elems && Holding(c.g.slots, home(k), locks, slots[..])
      requires x == Found(c.g, k) && (x == FREE <==> k !in Keys(c.g)) && (x != FREE ==> 0 <= x < elems.Length)
      modifies links, lists, slots, elems, this`rows
      ensures Valid() && Done(Abs(), res) == Plain(c, t, CallSet(k, v))
    {
      if x == FREE {
        Release(k, locks, c.g.slots);
        res := Refused;
      } else {
        elems[x] := elems[x].(val := v);
        Hit(t, k, x, locks, c);
        res := Ok;
      }
    }

    method Update(t: int, k: int, v: int, ghost c: Cache) returns (r: Reply)
      requires Valid() && Kept(c, home) && c == Abs() && Fits(c, t)
      modifies links, lists, slots, elems, this`rows
      ensures r.Overrun? <==> TooLong(c.g, home, OpOf(c, t, CallSet(k, v)))
      ensures r.Replied? ==> Valid() && Done(Abs(), r.res) == Plain(c, t, CallSet(k, v))
    {
      var x, locks, overrun := Begin(Index.Set(k, v), c);
      if overrun {
        r := Overrun;
      } else {
        var res := WriteFound(t, k, v, x, locks, c);
        r := Replied(res);
      }
    }

    /** Evict the last element of the list of t. */
    method Evict(t: int) returns (overrun: bool)
      requires Valid() && Exact(ix, home) && Almost(Abs(), home) && 0 <= t < threads && rows[t] != []
      modifies links, lists, slots, this`rows
      ensures overrun <==> TooLong(old(Abs()).g, home, Remove(Tail(old(Abs()), t)))
      ensures !overrun ==> Valid() && Abs() == Evicted(old(Abs()), ix, t)
    {
      ghost var c := Abs();
      var x := UnlinkTail(t);
      overrun := DropIndexed(x, c, t);
      if overrun { return; }
      PushFree(t, x);
    }

    /** The element x taken off the tail leaves the index. */
    method DropIndexed(x: int, ghost c: Cache, ghost t: int) returns (overrun: bool)
      requires Exact(ix, home) && Almost(c, home) && 0 <= t < |c.rows| && t < c.threads && c.rows[t] != []
      requires c.g == Table(slots[..], elems[..]) && x == Tail(c, t) && |c.rows| == 2 * c.threads
      requires Homes(home, slots.Length)
      modifies slots
      ensures overrun <==> TooLong(c.g, home, Remove(Tail(c, t)))
      ensures !overrun ==> Table(slots[..], elems[..]) == Evicted(c, ix, t).g
    {
      EvictedIs(c, ix, home, t);
      TooLongIs(c.g, home, Remove(x));
      var found;
      overrun, found := RemoveFromHash(x);
    }

    /** A thread without spare elements evicts one. */
    method EvictIfBare(t: int) returns (overrun: bool)
      requires Valid() && Exact(ix, home) && Almost(Abs(), home) && 0 <= t < threads && rows[t] != []
      modifies links, lists, slots, this`rows
      ensures var c := old(Abs());
              && (overrun <==> Pool(c, t) == [] && TooLong(c.g, home, Remove(Tail(c, t))))
              && (!overrun ==> Valid() && Abs() == if Pool(c, t) == [] then Evicted(c, ix, t) else c)
    {
      PoolEmpty(t);
      if lists[t].free == END {
        overrun := Evict(t);
      } else {
        overrun := false;
      }
    }

    /** A new key: e is the element taken from the free list, locks the slots held, the last of
        them free. */
    method IndexNew(t: int, k: int, v: int, e: int, locks: seq<int>, ghost c: Cache, ghost call: Call)
      requires Valid() && Exact(ix, home) && Kept(c, home) && 0 <= t < threads && Adds(call) && call.k == k
      requires call.v == v
      requires c.threads == threads && c.owned == owned && Fits(c, t) && e == Spare(c, t) && Loose(rows, e)
      requires rows == c.rows[threads + t := Cut(c.rows[threads + t], 0)]
      requires Probed(c.g, home, OpOf(c, t, call), locks) && k !in Keys(c.g)
      requires elems[..] == c.g.elems && |c.g.slots| == slots.Length && Holding(c.g.slots, home(k), locks, slots[..])
      modifies links, lists, slots, elems, this`rows
      ensures Valid() && Abs() == Added(c, ix, t, OpOf(c, t, call))
    {
      AddedPlan(c, ix, home, t, call, locks, slots[..]);
      elems[e] := Elem(k, v);
      Unlock(home(k), locks[|locks| - 1 := e], c.g.slots);
      LinkHead(t, e);
    }

    /** The end of insert and insertOrSet for a new key. */
    method Place(t: int, k: int, v: int, e: int, locks: seq<int>, ghost c: Cache, ghost call: Call)
      returns (overrun: bool)
      requires Valid() && Exact(ix, home) && Kept(c, home) && 0 <= t < threads && Adds(call) && call.k == k
      requires call.v == v
      requires c.threads == threads && c.owned == owned && Fits(c, t) && e == Spare(c, t) && Loose(rows, e)
      requires rows == c.rows[threads + t := Cut(c.rows[threads + t], 0)]
      requires Probed(c.g, home, OpOf(c, t, call), locks) && k !in Keys(c.g)
      requires elems[..] == c.g.elems && |c.g.slots| == slots.Length && Holding(c.g.slots, home(k), locks, slots[..])
      modifies links, lists, slots, elems, this`rows
      ensures overrun <==> EvictionOverruns(c, ix, home, t, call)
      ensures !overrun ==> Valid() && Abs() == Grown(c, ix, t, OpOf(c, t, call))
    {
      IndexNew(t, k, v, e, locks, c, call);
      AddedFacts(c, ix, home, t, call);
      overrun := EvictIfBare(t);
    }

    lemma PoolEmpty(t: int)
      requires Valid() && 0 <= t < threads
      ensures lists[t].free == END <==> rows[threads + t] == []
    {
      LaidOut(links[..], rows, threads, lists[..]);
      assert lists[..][t] == EndsOf(rows, threads, t);
      assert RowRep(links[..], rows, threads, threads + t);
      if rows[threads + t] != [] { assert 0 <= rows[threads + t][0] < links.Length; }
    }

    /** insert finds its key: the element e taken from the free list goes back. */
    method Refuse(t: int, k: int, v: int, e: int, locks: seq<int>, ghost c: Cache)
      requires Valid() && 0 <= t < threads && c.threads == threads && c.owned == owned && Kept(c, home) && Fits(c, t)
      requires k in Keys(c.g) && e == Spare(c, t) && Loose(rows, e) && 0 <= e < links.Length
      requires rows == c.rows[threads + t := Cut(c.rows[threads + t], 0)]
      requires elems[..] == c.g.elems && Holding(c.g.slots, home(k), locks, slots[..])
      modifies links, lists, slots, this`rows
      ensures Valid() && Abs() == c
    {
      PutBack(c.rows, threads + t);
      Release(k, locks, c.g.slots);
      PushFree(t, e);
    }

    /** insertOrSet finds its key at element x. */
    method Overwrite(t: int, k: int, v: int, e: int, x: int, locks: seq<int>, ghost c: Cache)
      requires Valid() && 0 <= t < threads && c.threads == threads && c.owned == owned && Kept(c, home) && Fits(c, t)
      requires k in Keys(c.g) && e == Spare(c, t) && x == Found(c.g, k) && 0 <= e < links.Length
      requires 0 <= x < elems.Length
      requires rows == c.rows[threads + t := Cut(c.rows[threads + t], 0)]
      requires elems[..] == c.g.elems && Holding(c.g.slots, home(k), locks, slots[..])
      modifies links, lists, slots, elems, this`rows
      ensures Valid()
      ensures Abs() == c.(g := Table(c.g.slots, c.g.elems[x := c.g.elems[x].(val := v)]), rows := Touched(c.rows, t, x))
    {
      HitWhilePopped(c, home, t, k, rows);
      elems[x] := elems[x].(val := v);
      Release(k, locks, c.g.slots);
      Touch(t, x);
      PushFree(t, e);
    }

    method AddFound(t: int, k: int, v: int, e: int, x: int, locks: seq<int>, ghost c: Cache) returns (r: Reply)
      requires Valid() && Exact(ix, home) && Kept(c, home) && 0 <= t < threads && c.threads == threads
      requires c.owned == owned
      requires Fits(c, t) && e == Spare(c, t) && Loose(rows, e) && 0 <= e < links.Length
      requires rows == c.rows[threads + t := Cut(c.rows[threads + t], 0)]
      requires elems[..] == c.g.elems && |c.g.slots| == slots.Length && Holding(c.g.slots, home(k), locks, slots[..])
      requires Probed(c.g, home, OpOf(c, t, CallInsert(k, v)), locks)
      requires x == Found(c.g, k) && (x == FREE <==> k !in Keys(c.g)) && (x != FREE ==> 0 <= x < elems.Length)
      modifies links, lists, slots, elems, this`rows
      ensures r.Overrun? <==> k !in Keys(c.g) && EvictionOverruns(c, ix, home, t, CallInsert(k, v))
      ensures r.Replied? ==>
                Valid() && Done(Abs(), r.res) == if k in Keys(c.g) then Plain(c, t, CallInsert(k, v))
                  else Done(Grown(c, ix, t, OpOf(c, t, CallInsert(k, v))), Ok)
    {
      if x != FREE {
        Refuse(t, k, v, e, locks, c);
        r := Replied(Refused);
      } else {
        var overrun := Place(t, k, v, e, locks, c, CallInsert(k, v));
        r := if overrun then Overrun else Replied(Ok);
      }
    }

    /** insert. */
    method Add(t: int, k: int, v: int, ghost c: Cache) returns (r: Reply)
      requires Valid() && Exact(ix, home) && Kept(c, home) && c == Abs() && Fits(c, t)
      modifies links, lists, slots, elems, this`rows
      ensures r.Overrun? <==>
                TooLong(c.g, home, OpOf(c, t, CallInsert(k, v)))
                  || (k !in Keys(c.g) && EvictionOverruns(c, ix, home, t, CallInsert(k, v)))
      ensures r.Replied? ==>
                Valid() && Done(Abs(), r.res) == if k in Keys(c.g) then Plain(c, t, CallInsert(k, v))
                  else Done(Grown(c, ix, t, OpOf(c, t, CallInsert(k, v))), Ok)
    {
      SpareIs(c, home, t);
      var e := PopFree(t);
      assert OpOf(c, t, CallInsert(k, v)) == Index.Insert(k, v, e);
      var x, locks, overrun := Begin(Index.Insert(k, v, e), c);
      if overrun {
        r := Overrun;
      } else {
        r := AddFound(t, k, v, e, x, locks, c);
      }
    }

    method AddOrUpdateFound(t: int, k: int, v: int, e: int, x: int, locks: seq<int>, ghost c: Cache) returns (r: Reply)
      requires Valid() && Exact(ix, home) && Kept(c, home) && 0 <= t < threads && c.threads == threads
      requires c.owned == owned
      requires Fits(c, t) && e == Spare(c, t) && Loose(rows, e) && 0 <= e < links.Length
      requires rows == c.rows[threads + t := Cut(c.rows[threads + t], 0)]
      requires elems[..] == c.g.elems && |c.g.slots| == slots.Length && Holding(c.g.slots, home(k), locks, slots[..])
      requires Probed(c.g, home, OpOf(c, t, CallInsertOrSet(k, v)), locks)
      requires x == Found(c.g, k) && (x == FREE <==> k !in Keys(c.g)) && (x != FREE ==> 0 <= x < elems.Length)
      modifies links, lists, slots, elems, this`rows
      ensures r.Overrun? <==> k !in Keys(c.g) && EvictionOverruns(c, ix, home, t, CallInsertOrSet(k, v))
      ensures r.Replied? ==>
                Valid() && Done(Abs(), r.res) == if k in Keys(c.g) then Plain(c, t, CallInsertOrSet(k, v))
                  else Done(Grown(c, ix, t, OpOf(c, t, CallInsertOrSet(k, v))), Ok)
    {
      if x != FREE {
        Overwrite(t, k, v, e, x, locks, c);
        r := Replied(Refused);
      } else {
        var overrun := Place(t, k, v, e, locks, c, CallInsertOrSet(k, v));
        r := if overrun then Overrun else Replied(Ok);
      }
    }

    /** insertOrSet. */
    method AddOrUpdate(t: int, k: int, v: int, ghost c: Cache) returns (r: Reply)
      requires Valid() && Exact(ix, home) && Kept(c, home) && c == Abs() && Fits(c, t)
      modifies links, lists, slots, elems, this`rows
      ensures r.Overrun? <==>
                TooLong(c.g, home, OpOf(c, t, CallInsertOrSet(k, v)))
                  || (k !in Keys(c.g) && EvictionOverruns(c, ix, home, t, CallInsertOrSet(k, v)))
      ensures r.Replied? ==>
                Valid() && Done(Abs(), r.res) == if k in Keys(c.g) then Plain(c, t, CallInsertOrSet(k, v))
                  else Done(Grown(c, ix, t, OpOf(c, t, CallInsertOrSet(k, v))), Ok)
    {
      SpareIs(c, home, t);
      var e := PopFree(t);
      assert OpOf(c, t, CallInsertOrSet(k, v)) == Index.InsertOrSet(k, v, e);
      var x, locks, overrun := Begin(Index.InsertOrSet(k, v, e), c);
      if overrun {
        r := Overrun;
      } else {
        r := AddOrUpdateFound(t, k, v, e, x, locks, c);
      }
    }

    method Get(t: int, k: int) returns (r: Reply)
      requires Ready() && 0 <= t < threads
      modifies links, lists, slots, elems, this`rows
      ensures Fits(old(Abs()), t)
      ensures r.Overrun? <==> Overruns(old(Abs()), ix, home, t, CallGet(k))
      ensures r.Replied? ==> Valid() && Done(Abs(), r.res) == Step(old(Abs()), ix, t, CallGet(k))
      ensures r.Replied? ==> (Ready() <==> Safe(old(Abs()), ix, home, t, CallGet(k)))
    {
      ghost var c := Abs();
      SpareIs(c, home, t);
      r := Lookup(t, k, c);
      StepPlain(c, ix, home, t, CallGet(k));
      StepKept(c, ix, home, t, CallGet(k));
    }

    method Set(t: int, k: int, v: int) returns (r: Reply)
      requires Ready() && 0 <= t < threads
      modifies links, lists, slots, elems, this`rows
      ensures Fits(old(Abs()), t)
      ensures r.Overrun? <==> Overruns(old(Abs()), ix, home, t, CallSet(k, v))
      ensures r.Replied? ==> Valid() && Done(Abs(), r.res) == Step(old(Abs()), ix, t, CallSet(k, v))
      ensures r.Replied? ==> (Ready() <==> Safe(old(Abs()), ix, home, t, CallSet(k, v)))
    {
      ghost var c := Abs();
      SpareIs(c, home, t);
      r := Update(t, k, v, c);
      StepPlain(c, ix, home, t, CallSet(k, v));
      StepKept(c, ix, home, t, CallSet(k, v));
    }

    method Insert(t: int, k: int, v: int) returns (r: Reply)
      requires Ready() && 0 <= t < threads
      modifies links, lists, slots, elems, this`rows
      ensures Fits(old(Abs()), t)
      ensures r.Overrun? <==> Overruns(old(Abs()), ix, home, t, CallInsert(k, v))
      ensures r.Replied? ==> Valid() && Done(Abs(), r.res) == Step(old(Abs()), ix, t, CallInsert(k, v))
      ensures r.Replied? ==> (Ready() <==> Safe(old(Abs()), ix, home, t, CallInsert(k, v)))
    {
      ghost var c := Abs();
      SpareIs(c, home, t);
      r := Add(t, k, v, c);
      StepAdds(c, ix, home, t, CallInsert(k, v));
      StepKept(c, ix, home, t, CallInsert(k, v));
    }

    method InsertOrSet(t: int, k: int, v: int) returns (r: Reply)
      requires Ready() && 0 <= t < threads
      modifies links, lists, slots, elems, this`rows
      ensures Fits(old(Abs()), t)
      ensures r.Overrun? <==> Overruns(old(Abs()), ix, home, t, CallInsertOrSet(k, v))
      ensures r.Replied? ==> Valid() && Done(Abs(), r.res) == Step(old(Abs()), ix, t, CallInsertOrSet(k, v))
      ensures r.Replied? ==> (Ready() <==> Safe(old(Abs()), ix, home, t, CallInsertOrSet(k, v)))
    {
      ghost var c := Abs();
      SpareIs(c, home, t);
      r := AddOrUpdate(t, k, v, c);
      StepAdds(c, ix, home, t, CallInsertOrSet(k, v));
      StepKept(c, ix, home, t, CallInsertOrSet(k, v));
    }
  }
}
