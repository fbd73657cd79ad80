/** Runs from the constructor on that end in the two failures of the table. */
module LruFailures {
  import opened Index
  import opened IndexTable
  import opened IndexMap
  import IndexRemove
  import opened IndexEngine
  import opened LruRows
  import opened LruCache
  import opened LruTheorems
  import opened LruTable
  import opened Pigeonhole

  // ---- more colliding keys than a lock buffer holds ----

  /** Where the probe for a key that is not stored ends. */
  lemma ProbeEnds(g: Table, home: int -> int, k: int) returns (d: nat)
    requires Sound(g, home) && k !in Keys(g)
    ensures d < Depth(g, home, Get(k)) <= |g.slots| && g.slots[At(home(k), d, |g.slots|)] == FREE
  {
    var m := Depth(g, home, Get(k));
    Stops(g, Get(k), k, home(k));
    ProbeFinds(g, home, k, m);
    d := Probe(g.elems, k, Contents(g.slots, home(k), m));
  }

  /** A stored key with the same home lies before that end. */
  lemma LiesBefore(g: Table, home: int -> int, k: int, j: int, d: nat)
    requires Sound(g, home) && j in Keys(g) && home(j) == home(k)
    requires d < |g.slots| && g.slots[At(home(k), d, |g.slots|)] == FREE
    ensures 0 <= Off(home(k), SlotOf(g, j), |g.slots|) < d
  {
    var p, n := SlotOf(g, j), |g.slots|;
    Back(home(k), p, n);
    if d < Off(home(k), p, n) { NoneBefore(g, home, p, d); }
  }

  /** A lookup that misses locks more slots than there are stored keys with its home. */
  lemma CrowdDeep(g: Table, home: int -> int, ks: seq<int>, k: int)
    requires Sound(g, home) && k !in Keys(g) && Distinct(ks)
    requires forall j {:trigger j in ks} :: j in ks ==> j in Keys(g) && home(j) == home(k)
    ensures Depth(g, home, Get(k)) > |ks|
  {
    var d := ProbeEnds(g, home, k);
    var n, start := |g.slots|, home(k);
    forall i | 0 <= i < |ks| ensures ks[i] in Keys(g) && 0 <= Off(start, SlotOf(g, ks[i]), n) < d {
      assert ks[i] in ks;
      LiesBefore(g, home, k, ks[i], d);
    }
    var offs := seq(|ks|, i requires 0 <= i < |ks| => Off(start, SlotOf(g, ks[i]), n));
    forall i, j | 0 <= i < j < |offs| ensures offs[i] != offs[j] {
      Back(start, SlotOf(g, ks[i]), n);
      Back(start, SlotOf(g, ks[j]), n);
      assert ks[i] != ks[j];
    }
    DistinctBelow(offs, d);
  }

  /** Thread 0 inserts the keys from i to n - 1. */
  function Inserts(i: nat, n: nat): seq<Turn>
    decreases n - i
  {
    if i >= n then [] else [Turn(0, CallInsert(i, 0))] + Inserts(i + 1, n)
  }

  /** One thread that stores exactly the keys below i and has at least n - i + 1 spare elements. */
  ghost predicate Stores(c: Cache, home: int -> int, i: nat, n: nat) {
    && Good(c, home) && c.threads == 1 && |Pool(c, 0)| > n - i
    && forall k :: k in Keys(c.g) <==> 0 <= k < i
  }

  lemma ViewKeys(g: Table, k: int)
    ensures k in View(g) <==> k in Keys(g)
  {}

  lemma InsertOne(c: Cache, ix: Engine, home: int -> int, i: nat, n: nat)
    requires Stores(c, home, i, n) && Lawful(ix, home) && i < n
    ensures Fits(c, 0) && Safe(c, ix, home, 0, CallInsert(i, 0))
    ensures Stores(Step(c, ix, 0, CallInsert(i, 0)).c, home, i + 1, n)
  {
    var call := CallInsert(i, 0);
    CallMeaning(c, ix, home, 0, call);
    var c' := Step(c, ix, 0, call).c;
    SpareLeft(c, ix, home, call);
    forall k ensures k in Keys(c'.g) <==> 0 <= k < i + 1 {
      ViewKeys(c.g, k);
      ViewKeys(c'.g, k);
    }
  }

  /** A new key takes one spare element, and nothing is evicted while there is another. */
  lemma SpareLeft(c: Cache, ix: Engine, home: int -> int, call: Call)
    requires Good(c, home) && c.threads == 1 && Lawful(ix, home) && Adds(call) && call.k !in Keys(c.g)
    requires |Pool(c, 0)| > 1
    ensures Fits(c, 0) && !Evicts(c, 0, call)
    ensures var c' := Step(c, ix, 0, call).c; c'.threads == 1 && |Pool(c', 0)| == |Pool(c, 0)| - 1
  {
    GrownMeaning(c, ix, home, 0, call);
    AddedRows(c, ix, home, 0, call);
  }

  lemma {:induction false} InsertAll(c: Cache, ix: Engine, home: int -> int, i: nat, n: nat)
    requires Stores(c, home, i, n) && Lawful(ix, home) && i <= n
    ensures SafeRun(c, ix, home, Inserts(i, n)) && Stores(Run(c, ix, home, Inserts(i, n)), home, n, n)
    decreases n - i
  {
    if i < n {
      InsertOne(c, ix, home, i, n);
      var turns := Inserts(i, n);
      assert turns[0] == Turn(0, CallInsert(i, 0)) && turns[1..] == Inserts(i + 1, n);
      InsertAll(Step(c, ix, 0, CallInsert(i, 0)).c, ix, home, i + 1, n);
    }
  }

  /** One thread with at least 247 elements inserts 246 keys that share a home; then looking for
      another key with that home writes past the lock buffer. */
  lemma CrowdOverruns(per: nat, elems: seq<Elem>, hashSize: nat, ix: Engine, home: int -> int, k: int)
    requires BUFFER < per <= |elems| < hashSize && |elems| <= LOCK && Homes(home, hashSize) && Exact(ix, home)
    requires k >= BUFFER && forall j :: 0 <= j < BUFFER ==> home(j) == home(k)
    ensures SafeRun(Start(1, per, elems, hashSize), ix, home, Inserts(0, BUFFER))
    ensures var c := Run(Start(1, per, elems, hashSize), ix, home, Inserts(0, BUFFER));
            && Good(c, home) && Fits(c, 0) && Homes(home, |c.g.slots|)
            && Overruns(c, ix, home, 0, CallGet(k))
  {
    ExactLawful(ix, home);
    var c0 := Start(1, per, elems, hashSize);
    StartGood(1, per, elems, hashSize, home);
    assert Held(c0, 0) == per;
    assert forall j :: j in Keys(c0.g) <==> j in View(c0.g);
    InsertAll(c0, ix, home, 0, BUFFER);
    FullOverruns(Run(c0, ix, home, Inserts(0, BUFFER)), ix, home, k);
  }

  lemma FullOverruns(c: Cache, ix: Engine, home: int -> int, k: int)
    requires Stores(c, home, BUFFER, BUFFER) && k >= BUFFER && forall j :: 0 <= j < BUFFER ==> home(j) == home(k)
    ensures Fits(c, 0) && Homes(home, |c.g.slots|) && Overruns(c, ix, home, 0, CallGet(k))
  {
    SpareFree(c, home, 0);
    CrowdDeep(c.g, home, seq(BUFFER, i => i), k);
    TooLongIs(c.g, home, Get(k));
  }

  // ---- a run that crosses the last slot ----

  /** The first free slot is the home slot: a new element goes there. */
  lemma InsertAtHome(g: Table, home: int -> int, k: int, v: int, e: int)
    requires Homes(home, |g.slots|) && g.slots[home(k)] == FREE && 0 <= e < |g.elems|
    ensures Apply(g, home, Insert(k, v, e)).t == Table(g.slots[home(k) := e], g.elems[e := Elem(k, v)])
  {
    var op, start := Insert(k, v, e), home(k);
    assert Contents(g.slots, start, 0) == [] && Contents(g.slots, start, 1) == [FREE];
    assert !Stop(g.elems, op, k, []) && Stop(g.elems, op, k, [FREE]);
    assert Need(g, op, k, start, 0) == Need(g, op, k, start, 1) == 1;
    assert [FREE][0 := e] == [e];
    assert WriteBack(g.slots, start, [e]) == g.slots[start := e];
  }

  lemma TakeSpare(x: seq<int>, y: seq<int>)
    requires y != []
    ensures Moved([x, y], 1, 0, 0) == [[y[0]] + x, y[1..]]
  {
    assert Cut(y, 0) == y[1..];
    assert [x, y][1 := y[1..]] == [x, y[1..]];
  }

  lemma GiveBack(x: seq<int>, y: seq<int>)
    requires x != []
    ensures Moved([x, y], 0, |x| - 1, 1) == [x[..|x| - 1], [x[|x| - 1]] + y]
  {
    assert Cut(x, |x| - 1) == x[..|x| - 1];
    assert [x, y][0 := x[..|x| - 1]] == [x[..|x| - 1], y];
  }

  lemma FirstRows()
    ensures StartRows(1, 2) == [[], [0, 1]]
  {
    var rows := StartRows(1, 2);
    assert rows[1] == [0, 1];
    assert rows[0] == [];
  }

  ghost function After7(elems: seq<Elem>): Cache
    requires |elems| == 2
  {
    Cache(Table([FREE, FREE, FREE, 0], elems[0 := Elem(7, 70)]), 1, 2, [[0], [1]])
  }

  lemma Insert7(elems: seq<Elem>, ix: Engine)
    requires |elems| == 2 && Exact(ix, IndexRemove.DemoHome)
    ensures Fits(Start(1, 2, elems, 4), 0)
    ensures Step(Start(1, 2, elems, 4), ix, 0, CallInsert(7, 70)).c == After7(elems)
  {
    var c := Start(1, 2, elems, 4);
    FirstRows();
    assert Keys(c.g) == {};
    ExactAt(ix, IndexRemove.DemoHome, c.g, Insert(7, 70, 0));
    InsertAtHome(c.g, IndexRemove.DemoHome, 7, 70, 0);
    var none: seq<int> := [];
    TakeSpare(none, [0, 1]);
    assert [0, 1][1..] == [1] && [0] + none == [0];
    var c' := Added(c, ix, 0, Insert(7, 70, 0));
    assert c'.rows == [[0], [1]] && Pool(c', 0) == [1];
    assert c.g.slots[3 := 0] == [FREE, FREE, FREE, 0];
  }

  ghost function After8(): Cache {
    Cache(IndexRemove.DEMO, 1, 2, [[1, 0], []])
  }

  lemma Add8(elems: seq<Elem>, ix: Engine)
    requires |elems| == 2 && Exact(ix, IndexRemove.DemoHome)
    ensures Fits(After7(elems), 0) && Added(After7(elems), ix, 0, Insert(8, 80, 1)) == After8()
  {
    var c := After7(elems);
    ExactAt(ix, IndexRemove.DemoHome, c.g, Insert(8, 80, 1));
    InsertAtHome(c.g, IndexRemove.DemoHome, 8, 80, 1);
    TakeSpare([0], [1]);
    assert [1] + [0] == [1, 0] && [1][1..] == [];
    assert c.g.slots[0 := 1] == [1, FREE, FREE, 0];
    assert c.g.elems[1 := Elem(8, 80)] == [Elem(7, 70), Elem(8, 80)];
  }

  lemma Only7(elems: seq<Elem>)
    requires |elems| == 2
    ensures 8 !in Keys(After7(elems).g)
  {}

  /** Two insertions into a new table of two elements and four slots: the second evicts key 7, and
      key 8, still stored, is not found any more. */
  lemma CrossingRun(elems: seq<Elem>, ix: Engine)
    requires |elems| == 2 && Exact(ix, IndexRemove.DemoHome)
    ensures var c0 := Start(1, 2, elems, 4);
            && Good(c0, IndexRemove.DemoHome) && Fits(c0, 0)
            && var c1 := Step(c0, ix, 0, CallInsert(7, 70)).c;
            && Good(c1, IndexRemove.DemoHome) && Fits(c1, 0)
                 && !Safe(c1, ix, IndexRemove.DemoHome, 0, CallInsert(8, 80))
            && var d := Step(c1, ix, 0, CallInsert(8, 80));
            && d.res == Ok && Fits(d.c, 0) && 8 in Keys(d.c.g)
            && Step(d.c, ix, 0, CallGet(8)).res == NotFound
  {
    Stored7(elems, ix);
    Insert8(elems, ix);
    Evict7(ix);
  }

  /** The first insertion leaves a table in order. */
  lemma Stored7(elems: seq<Elem>, ix: Engine)
    requires |elems| == 2 && Exact(ix, IndexRemove.DemoHome)
    ensures var c0 := Start(1, 2, elems, 4);
            && Good(c0, IndexRemove.DemoHome) && Fits(c0, 0)
            && Step(c0, ix, 0, CallInsert(7, 70)).c == After7(elems) && Good(After7(elems), IndexRemove.DemoHome)
  {
    var home := IndexRemove.DemoHome;
    ExactLawful(ix, home);
    StartGood(1, 2, elems, 4, home);
    Insert7(elems, ix);
    FirstRows();
    CallMeaning(Start(1, 2, elems, 4), ix, home, 0, CallInsert(7, 70));
  }

  /** The second takes the last spare element and evicts, which is not safe. */
  lemma Insert8(elems: seq<Elem>, ix: Engine)
    requires |elems| == 2 && Exact(ix, IndexRemove.DemoHome) && Good(After7(elems), IndexRemove.DemoHome)
    ensures var c := After7(elems);
            && Fits(c, 0) && !Safe(c, ix, IndexRemove.DemoHome, 0, CallInsert(8, 80))
            && Step(c, ix, 0, CallInsert(8, 80)) == Done(Evicted(After8(), ix, 0), Ok)
  {
    ExactLawful(ix, IndexRemove.DemoHome);
    Only7(elems);
    Add8(elems, ix);
    GrownMeaning(After7(elems), ix, IndexRemove.DemoHome, 0, CallInsert(8, 80));
    IndexRemove.CrossingLosesKeys();
  }

  ghost function Lost8(): Cache {
    Cache(Table([FREE, FREE, FREE, 1], IndexRemove.DEMO.elems), 1, 2, [[1], [0]])
  }

  lemma Evict7(ix: Engine)
    requires Exact(ix, IndexRemove.DemoHome)
    ensures Evicted(After8(), ix, 0) == Lost8()
    ensures 8 in Keys(Lost8().g) && ix(Lost8().g, Get(8)).res == NotFound
  {
    var c := After8();
    IndexRemove.DemoApply();
    IndexRemove.DemoLost();
    ExactAt(ix, IndexRemove.DemoHome, c.g, Remove(0));
    ExactAt(ix, IndexRemove.DemoHome, Lost8().g, Get(8));
    var none: seq<int> := [];
    GiveBack([1, 0], none);
    assert [1, 0][..1] == [1] && [0] + none == [0];
  }
}
