/** What whole runs of the cache keep, and how long an element stays in it. */
module LruTheorems {
  import opened Index
  import opened IndexTable
  import opened IndexMap
  import opened IndexRemove
  import opened IndexEngine
  import opened LruRows
  import opened LruCache
  import opened Blocks

  /** No occupied run crosses the last slot when a call evicts: then its eviction is safe. */
  lemma SafeWithoutCrossing(c: Cache, ix: Engine, home: int -> int, t: int, call: Call)
    requires Good(c, home) && Lawful(ix, home) && 0 <= t < c.threads && Fits(c, t)
    requires Evicts(c, t, call) ==>
               var g := Added(c, ix, t, OpOf(c, t, call)).g; |g.slots| > 0 && NoCrossing(g)
    ensures Safe(c, ix, home, t, call)
  {
    FoundIs(c.g, home, call.k);
    if Evicts(c, t, call) {
      AddedNearly(c, ix, home, t, call);
      var c1 := Added(c, ix, t, OpOf(c, t, call));
      TailIndexed(c1, home, t);
      NoCrossingIsSafe(c1.g, home, Tail(c1, t));
    }
  }

  // ---- how far an element is from eviction ----

  /** Elements behind x on its list, plus the spare elements its owner has in excess of one. */
  ghost function Room(c: Cache, x: int): int
    requires Somewhere(c.rows, x)
  {
    var p := PlaceOf(c.rows, x);
    |c.rows[p.row]| - 1 - p.pos + |Pool(c, p.row)| - 1
  }

  /** The elements of thread t, listed and spare. */
  ghost function Held(c: Cache, t: int): int
    requires 0 <= t < |c.rows|
  {
    |c.rows[t]| + |Pool(c, t)|
  }

  function One(b: bool): int { if b then 1 else 0 }

  /** Moving some other element lowers the room of x by one if it was behind x or spare. */
  lemma MovedRoom(c: Cache, c': Cache, a: int, i: int, b: int, p: Place, x: int)
    requires |c.rows| == 2 * c.threads && Disjoint(c.rows) && InRow(c.rows, a, i) && 0 <= b < |c.rows|
    requires c'.rows == Moved(c.rows, a, i, b) && c'.threads == c.threads
    requires Holds(c.rows, p, x) && p.row < c.threads && p != Place(a, i)
    ensures Somewhere(c.rows, x) && Somewhere(c'.rows, x) && PlaceOf(c'.rows, x).row == p.row
    ensures Room(c', x) == Room(c, x) - One(a == p.row && p.pos < i) - One(a == c.threads + p.row)
            + One(b == c.threads + p.row)
  {
    PlaceIs(c.rows, p, x);
    MovedPlace(c.rows, a, i, b, p, x);
  }

  /** A moved element has the whole list behind it. */
  lemma HeadRoom(c: Cache, t: int, x: int)
    requires |c.rows| == 2 * c.threads && Disjoint(c.rows) && 0 <= t < c.threads && Holds(c.rows, Place(t, 0), x)
    ensures Somewhere(c.rows, x) && Room(c, x) == Held(c, t) - 2
  {
    PlaceIs(c.rows, Place(t, 0), x);
  }

  lemma MovedHeld(c: Cache, c': Cache, a: int, i: int, b: int, t: int)
    requires |c.rows| == 2 * c.threads && InRow(c.rows, a, i) && 0 <= b < |c.rows| && 0 <= t < c.threads
    requires c'.rows == Moved(c.rows, a, i, b) && c'.threads == c.threads
    ensures Held(c', t) == Held(c, t) - One(a == t || a == c.threads + t) + One(b == t || b == c.threads + t)
  {}

  /** What one turn of thread t may do to an element x that stays on a list. */
  ghost predicate AtMostOne(c: Cache, c': Cache, t: int, x: int) {
    && Somewhere(c.rows, x) && Listed(c', x) && Somewhere(c'.rows, x) && 0 <= t < |c'.rows|
    && (Room(c', x) >= Room(c, x) - 1 || Room(c', x) == Held(c', t) - 2)
  }

  ghost predicate KeyKept(c: Cache, c': Cache, x: int) {
    0 <= x < |c.g.elems| && x < |c'.g.elems| && c'.g.elems[x].key == c.g.elems[x].key
  }

  lemma MoveAges(c: Cache, c': Cache, home: int -> int, t: int, q: Place, x: int)
    requires Good(c, home) && Good(c', home) && 0 <= t < c.threads && Listed(c, x) && Listed(c', x)
    requires InRow(c.rows, q.row, q.pos) && q.row < c.threads
    requires c'.rows == Moved(c.rows, q.row, q.pos, t) && c'.threads == c.threads
    ensures AtMostOne(c, c', t, x) && Held(c', t) >= Held(c, t)
  {
    PlaceOnList(c, home, x);
    var p := PlaceOf(c.rows, x);
    MovedHeld(c, c', q.row, q.pos, t, t);
    if p == q {
      HeadRoom(c', t, x);
    } else {
      MovedRoom(c, c', q.row, q.pos, t, p, x);
    }
  }

  lemma TouchAges(c: Cache, home: int -> int, t: int, y: int, g: Table, x: int)
    requires Good(c, home) && 0 <= t < c.threads && Listed(c, x) && Listed(c, y)
    requires Sound(g, home) && |g.elems| == |c.g.elems| && g.slots == c.g.slots
    ensures var c' := Cache(g, c.threads, c.owned, Touched(c.rows, t, y));
            AtMostOne(c, c', t, x) && Held(c', t) >= Held(c, t)
  {
    var c' := Cache(g, c.threads, c.owned, Touched(c.rows, t, y));
    PlaceOnList(c, home, x);
    PlaceOnList(c, home, y);
    var q := PlaceOf(c.rows, y);
    TouchedGood(c, home, t, y, g);
    if Movable(c.rows[q.row], q.pos) {
      assert x in c.g.slots;
      assert Listed(c', x);
      MoveAges(c, c', home, t, q, x);
    } else {
      SameAges(c, home, t, g, x);
    }
  }

  lemma SameAges(c: Cache, home: int -> int, t: int, g: Table, x: int)
    requires Good(c, home) && 0 <= t < c.threads && Listed(c, x)
    ensures AtMostOne(c, c.(g := g), t, x) && Held(c.(g := g), t) == Held(c, t)
  {
    PlaceOnList(c, home, x);
    var c' := c.(g := g);
    assert Listed(c', x);
  }

  lemma HitStep(c: Cache, ix: Engine, home: int -> int, t: int, call: Call) returns (y: int, g: Table)
    requires Good(c, home) && 0 <= t < c.threads && Lawful(ix, home) && call.k in Keys(c.g)
    ensures Fits(c, t) && Listed(c, y) && Sound(g, home) && g.slots == c.g.slots && SameKeyed(c.g, g)
    ensures Step(c, ix, t, call).c == c.(g := g, rows := if call.CallInsert? then c.rows else Touched(c.rows, t, y))
  {
    SpareFree(c, home, t);
    FoundIs(c.g, home, call.k);
    y := Found(c.g, call.k);
    var op := OpOf(c, t, call);
    LawfulAt(ix, home, c.g, op);
    g := ix(c.g, op).t;
    assert Listed(c, y);
  }

  lemma HitAges(c: Cache, ix: Engine, home: int -> int, t: int, call: Call, x: int)
    requires Good(c, home) && 0 <= t < c.threads && Lawful(ix, home) && Listed(c, x) && call.k in Keys(c.g)
    ensures Fits(c, t)
    ensures var c' := Step(c, ix, t, call).c; AtMostOne(c, c', t, x) && KeyKept(c, c', x) && Held(c', t) >= Held(c, t)
  {
    var y, g := HitStep(c, ix, home, t, call);
    PlaceOnList(c, home, x);
    if call.CallInsert? {
      SameAges(c, home, t, g, x);
    } else {
      TouchAges(c, home, t, y, g, x);
    }
  }

  lemma MissAges(c: Cache, ix: Engine, home: int -> int, t: int, call: Call, x: int)
    requires Good(c, home) && 0 <= t < c.threads && Lawful(ix, home) && Listed(c, x) && call.k !in Keys(c.g)
    requires !Adds(call)
    ensures Fits(c, t)
    ensures var c' := Step(c, ix, t, call).c; AtMostOne(c, c', t, x) && KeyKept(c, c', x) && Held(c', t) >= Held(c, t)
  {
    MissGood(c, ix, home, t, call);
    FoundIs(c.g, home, call.k);
    PlaceOnList(c, home, x);
    SameAges(c, home, t, ix(c.g, OpOf(c, t, call)).t, x);
  }

  lemma TakenAges(c: Cache, c': Cache, t: int, x: int, u: int)
    requires |c.rows| == 2 * c.threads && Disjoint(c.rows) && 0 <= t < c.threads && Pool(c, t) != []
    requires c'.rows == Moved(c.rows, c.threads + t, 0, t) && c'.threads == c.threads
    requires Somewhere(c.rows, x) && 0 <= u < c.threads && u == PlaceOf(c.rows, x).row
    ensures Somewhere(c'.rows, x) && PlaceOf(c'.rows, x).row == u
    ensures Room(c', x) == Room(c, x) - One(t == u)
  {
    MovedRoom(c, c', c.threads + t, 0, t, PlaceOf(c.rows, x), x);
  }

  /** Taking a spare element makes the owner's elements one step older. */
  lemma AddedAges(c: Cache, ix: Engine, home: int -> int, t: int, call: Call, x: int)
    requires Good(c, home) && 0 <= t < c.threads && Lawful(ix, home) && Listed(c, x) && call.k !in Keys(c.g)
    requires Adds(call)
    ensures Fits(c, t) && Somewhere(c.rows, x)
    ensures var c1 := Added(c, ix, t, OpOf(c, t, call));
            var u := PlaceOf(c.rows, x).row;
            && Listed(c1, x) && Somewhere(c1.rows, x) && PlaceOf(c1.rows, x).row == u
            && Room(c1, x) == Room(c, x) - One(t == u)
            && Held(c1, t) == Held(c, t)
            && x != Spare(c, t)
  {
    SpareFree(c, home, t);
    PlaceOnList(c, home, x);
    SpareTaken(c, Added(c, ix, t, OpOf(c, t, call)), t, x);
  }

  lemma SpareTaken(c: Cache, c': Cache, t: int, x: int)
    requires |c.rows| == 2 * c.threads && Disjoint(c.rows) && 0 <= t < c.threads && Pool(c, t) != []
    requires c'.rows == Moved(c.rows, c.threads + t, 0, t) && c'.threads == c.threads
    requires Listed(c, x) && Somewhere(c.rows, x) && 0 <= PlaceOf(c.rows, x).row < c.threads && x != Spare(c, t)
    ensures Listed(c', x) && Somewhere(c'.rows, x) && PlaceOf(c'.rows, x).row == PlaceOf(c.rows, x).row
    ensures Room(c', x) == Room(c, x) - One(t == PlaceOf(c.rows, x).row) && Held(c', t) == Held(c, t)
  {
    ListMoveListed(c, c', c.threads + t, 0, t, x);
    TakenAges(c, c', t, x, PlaceOf(c.rows, x).row);
    MovedHeld(c, c', c.threads + t, 0, t, t);
  }

  /** Eviction takes x exactly when x is last on the list of t. */
  lemma EvictedAges(c: Cache, ix: Engine, home: int -> int, t: int, x: int)
    requires Nearly(c, home) && 0 <= t < c.threads && c.rows[t] != [] && Pool(c, t) == [] && Listed(c, x)
    requires Somewhere(c.rows, x) && PlaceOf(c.rows, x).row < c.threads
    ensures var c' := Evicted(c, ix, t);
            var u := PlaceOf(c.rows, x).row;
            && (Listed(c', x) <==> x != Tail(c, t))
            && (x == Tail(c, t) <==> u == t && Room(c, x) == -1)
            && (x != Tail(c, t) ==> Somewhere(c'.rows, x) && Room(c', x) == Room(c, x) && PlaceOf(c'.rows, x).row == u)
            && Held(c', t) == Held(c, t)
  {
    var c', i := Evicted(c, ix, t), |c.rows[t]| - 1;
    var p := PlaceOf(c.rows, x);
    ListMoveListed(c, c', t, i, c.threads + t, x);
    MovedHeld(c, c', t, i, c.threads + t, t);
    PlaceIs(c.rows, Place(t, i), Tail(c, t));
    if x != Tail(c, t) {
      MovedRoom(c, c', t, i, c.threads + t, p, x);
    }
  }

  /** An element of an LRU list whose owner has a spare element has room. */
  lemma RoomNatural(c: Cache, x: int)
    requires Somewhere(c.rows, x) && Pool(c, PlaceOf(c.rows, x).row) != []
    ensures Room(c, x) >= 0
  {}

  lemma ListedRoom(c: Cache, home: int -> int, x: int)
    requires Good(c, home) && Listed(c, x)
    ensures Somewhere(c.rows, x) && 0 <= PlaceOf(c.rows, x).row < c.threads && Room(c, x) >= 0
  {
    PlaceOnList(c, home, x);
    assert Pool(c, PlaceOf(c.rows, x).row) != [];
    RoomNatural(c, x);
  }

  /** What a new key does to the place of x. */
  ghost predicate MovesOn(c: Cache, c': Cache, t: int, x: int)
    requires Somewhere(c.rows, x) && 0 <= t < |c.rows| && t < |c'.rows|
  {
    var u := PlaceOf(c.rows, x).row;
    && (Listed(c', x) <==> t != u || Room(c, x) > 0)
    && (Listed(c', x) ==>
        Somewhere(c'.rows, x) && Room(c', x) == Room(c, x) - One(t == u) && PlaceOf(c'.rows, x).row == u)
    && Held(c', t) == Held(c, t)
  }

  lemma GrownRoom(c: Cache, ix: Engine, home: int -> int, t: int, call: Call, x: int)
    requires Good(c, home) && 0 <= t < c.threads && Lawful(ix, home) && Listed(c, x)
    requires call.k !in Keys(c.g) && Adds(call)
    ensures Fits(c, t) && Somewhere(c.rows, x) && |Grown(c, ix, t, OpOf(c, t, call)).rows| == |c.rows|
    ensures MovesOn(c, Grown(c, ix, t, OpOf(c, t, call)), t, x)
  {
    ListedRoom(c, home, x);
    AddedNearly(c, ix, home, t, call);
    AddedRows(c, ix, home, t, call);
    AddedAges(c, ix, home, t, call, x);
    var c1 := Added(c, ix, t, OpOf(c, t, call));
    if Pool(c1, t) == [] {
      EvictedAges(c1, ix, home, t, x);
    } else {
      var u := PlaceOf(c1.rows, x).row;
      assert Pool(c1, u) != [];
      RoomNatural(c1, x);
    }
  }

  /** A new key: x is one step closer to eviction if it is on the list of t, and leaves the
      cache exactly when it had no room left. */
  lemma GrownAges(c: Cache, ix: Engine, home: int -> int, t: int, call: Call, x: int)
    requires Good(c, home) && 0 <= t < c.threads && Lawful(ix, home) && Listed(c, x)
    requires call.k !in Keys(c.g) && Adds(call)
    ensures Fits(c, t) && Somewhere(c.rows, x) && Room(c, x) >= 0
    ensures var c' := Step(c, ix, t, call).c;
            |c'.rows| == |c.rows| && MovesOn(c, c', t, x) && KeyKept(c, c', x)
  {
    GrownMeaning(c, ix, home, t, call);
    GrownRoom(c, ix, home, t, call, x);
    ListedRoom(c, home, x);
    GrownKeys(c, ix, home, t, call, x);
  }

  lemma GrownKeys(c: Cache, ix: Engine, home: int -> int, t: int, call: Call, x: int)
    requires Good(c, home) && 0 <= t < c.threads && Lawful(ix, home) && Listed(c, x)
    requires call.k !in Keys(c.g) && Adds(call)
    ensures Fits(c, t) && KeyKept(c, Grown(c, ix, t, OpOf(c, t, call)), x)
  {
    SpareFree(c, home, t);
    PlaceOnList(c, home, x);
    GrownGood(c, ix, home, t, call);
  }

  /** One turn, in all cases. */
  lemma TurnAges(c: Cache, ix: Engine, home: int -> int, t: int, call: Call, x: int)
    requires Good(c, home) && 0 <= t < c.threads && Lawful(ix, home) && Listed(c, x)
    ensures Fits(c, t) && Somewhere(c.rows, x) && Room(c, x) >= 0
    ensures var c' := Step(c, ix, t, call).c;
            && (Room(c, x) >= 1 ==> AtMostOne(c, c', t, x))
            && KeyKept(c, c', x) && 0 <= t < |c'.rows| && Held(c', t) >= Held(c, t)
  {
    PlaceOnList(c, home, x);
    assert Pool(c, PlaceOf(c.rows, x).row) != [];
    if call.k in Keys(c.g) {
      HitAges(c, ix, home, t, call, x);
    } else if Adds(call) {
      GrownAges(c, ix, home, t, call, x);
    } else {
      MissAges(c, ix, home, t, call, x);
    }
  }

  // ---- runs ----

  datatype Turn = Turn(t: int, call: Call)

  /** A run of the cache, every eviction of which is safe. */
  ghost predicate SafeRun(c: Cache, ix: Engine, home: int -> int, turns: seq<Turn>)
    decreases |turns|
  {
    turns == [] ||
    (Fits(c, turns[0].t) && Safe(c, ix, home, turns[0].t, turns[0].call)
     && SafeRun(Step(c, ix, turns[0].t, turns[0].call).c, ix, home, turns[1..]))
  }

  ghost function Run(c: Cache, ix: Engine, home: int -> int, turns: seq<Turn>): Cache
    requires SafeRun(c, ix, home, turns)
    decreases |turns|
  {
    if turns == [] then c else Run(Step(c, ix, turns[0].t, turns[0].call).c, ix, home, turns[1..])
  }

  /** In every run of `LruCache.Step`, which a run of the class is up to its first overrun (none with
      fewer than 246 elements, `LruTable.FewFit`): the elements stay partitioned between LRU lists and
      free lists, every free list is non-empty, an element is on an LRU list exactly when it is
      indexed, and the index is sound. */
  lemma {:induction false} RunGood(c: Cache, ix: Engine, home: int -> int, turns: seq<Turn>)
    requires Good(c, home) && Lawful(ix, home) && SafeRun(c, ix, home, turns)
    ensures var r := Run(c, ix, home, turns); Good(r, home) && r.owned == c.owned && r.threads == c.threads
    decreases |turns|
  {
    if turns != [] {
      CallMeaning(c, ix, home, turns[0].t, turns[0].call);
      RunGood(Step(c, ix, turns[0].t, turns[0].call).c, ix, home, turns[1..]);
    }
  }

  lemma {:induction false} RunSplit(c: Cache, ix: Engine, home: int -> int, before: seq<Turn>, after: seq<Turn>)
    requires SafeRun(c, ix, home, before + after)
    ensures SafeRun(c, ix, home, before) && SafeRun(Run(c, ix, home, before), ix, home, after)
    ensures Run(c, ix, home, before + after) == Run(Run(c, ix, home, before), ix, home, after)
    decreases |before|
  {
    if before == [] {
      assert before + after == after;
    } else {
      assert (before + after)[0] == before[0] && (before + after)[1..] == before[1..] + after;
      RunSplit(Step(c, ix, before[0].t, before[0].call).c, ix, home, before[1..], after);
    }
  }

  /** After each turn its thread has at least n elements. */
  ghost predicate Roomy(c: Cache, ix: Engine, home: int -> int, turns: seq<Turn>, n: int)
    requires SafeRun(c, ix, home, turns)
    decreases |turns|
  {
    turns == [] ||
    (var c' := Step(c, ix, turns[0].t, turns[0].call).c;
     turns[0].t < |c'.rows| && Held(c', turns[0].t) >= n && Roomy(c', ix, home, turns[1..], n))
  }

  lemma ListedKeys(c: Cache, home: int -> int, x: int)
    requires Good(c, home) && Listed(c, x)
    ensures 0 <= x < |c.g.elems| && c.g.elems[x].key in Keys(c.g)
  {
    PlaceOnList(c, home, x);
    assert x in c.g.slots;
  }

  /** Turns of any threads: an element with room for all of them survives them, and so does its key. */
  lemma {:induction false} Survives(c: Cache, ix: Engine, home: int -> int, turns: seq<Turn>, n: int, x: int)
    requires Good(c, home) && Lawful(ix, home) && SafeRun(c, ix, home, turns) && Roomy(c, ix, home, turns, n)
    requires Listed(c, x) && Somewhere(c.rows, x) && |turns| <= Room(c, x) && |turns| < n - 1
    ensures var r := Run(c, ix, home, turns);
            Listed(r, x) && KeyKept(c, r, x) && c.g.elems[x].key in Keys(r.g)
    decreases |turns|
  {
    if turns == [] {
      ListedKeys(c, home, x);
    } else {
      var t, call := turns[0].t, turns[0].call;
      CallMeaning(c, ix, home, t, call);
      TurnAges(c, ix, home, t, call, x);
      Survives(Step(c, ix, t, call).c, ix, home, turns[1..], n, x);
    }
  }

  // ---- one thread ----

  ghost predicate AllBy(turns: seq<Turn>, t: int) {
    forall i {:trigger turns[i]} :: 0 <= i < |turns| ==> turns[i].t == t
  }

  lemma {:induction false} AloneRoomy(c: Cache, ix: Engine, home: int -> int, turns: seq<Turn>, t: int, n: int)
    requires Good(c, home) && Lawful(ix, home) && SafeRun(c, ix, home, turns) && AllBy(turns, t)
    requires 0 <= t < c.threads && Held(c, t) >= n
    ensures Roomy(c, ix, home, turns, n)
    ensures t < |Run(c, ix, home, turns).rows| && Held(Run(c, ix, home, turns), t) >= n
    decreases |turns|
  {
    if turns != [] {
      var call := turns[0].call;
      assert turns[0].t == t;
      CallMeaning(c, ix, home, t, call);
      HeldGrows(c, ix, home, t, call);
      AloneRoomy(Step(c, ix, t, call).c, ix, home, turns[1..], t, n);
    }
  }

  lemma GrownHeld(c: Cache, ix: Engine, home: int -> int, t: int, call: Call)
    requires Fits(c, t) && Adds(call)
    ensures var c' := Grown(c, ix, t, OpOf(c, t, call));
            c'.threads == c.threads && |c'.rows| == |c.rows| && Held(c', t) == Held(c, t)
  {
    var c1 := Added(c, ix, t, OpOf(c, t, call));
    MovedHeld(c, c1, c.threads + t, 0, t, t);
    if Pool(c1, t) == [] {
      MovedHeld(c1, Evicted(c1, ix, t), t, |c1.rows[t]| - 1, c.threads + t, t);
    }
  }

  lemma HeldGrows(c: Cache, ix: Engine, home: int -> int, t: int, call: Call)
    requires Good(c, home) && Lawful(ix, home) && 0 <= t < c.threads
    ensures Fits(c, t) && Step(c, ix, t, call).c.threads == c.threads && |Step(c, ix, t, call).c.rows| == |c.rows|
    ensures Held(Step(c, ix, t, call).c, t) >= Held(c, t)
  {
    if call.k in Keys(c.g) {
      var y, g := HitStep(c, ix, home, t, call);
      HitAges(c, ix, home, t, call, y);
    } else if Adds(call) {
      GrownMeaning(c, ix, home, t, call);
      GrownHeld(c, ix, home, t, call);
    } else {
      MissGood(c, ix, home, t, call);
      FoundIs(c.g, home, call.k);
    }
  }

  // ---- from the constructor on ----

  /** Thread t starts with elements t * per .. (t + 1) * per - 1 on its free list. */
  function StartRows(threads: nat, per: nat): (rows: seq<seq<int>>)
    ensures |rows| == 2 * threads
  {
    seq(threads, _ => []) + seq(threads, t requires 0 <= t < threads => seq(per, i => t * per + i))
  }

  function Start(threads: nat, per: nat, elems: seq<Elem>, hashSize: nat): Cache {
    Cache(Table(seq(hashSize, _ => FREE), elems), threads, threads * per, StartRows(threads, per))
  }

  lemma StartPartition(threads: nat, per: nat)
    requires per > 0
    ensures Partition(StartRows(threads, per), threads * per)
  {
    var rows := StartRows(threads, per);
    forall a, i, b, j | InRow(rows, a, i) && InRow(rows, b, j) && rows[a][i] == rows[b][j] ensures a == b && i == j {
      SameBlock(a - threads, i, per, b - threads, j);
    }
    forall x ensures 0 <= x < threads * per <==> Somewhere(rows, x) {
      if 0 <= x < threads * per {
        Block(x, x / per, x % per, per, threads);
        assert rows[threads + x / per][x % per] == x;
      }
      if Somewhere(rows, x) {
        var a :| 0 <= a < |rows| && x in rows[a];
        var i :| 0 <= i < |rows[a]| && rows[a][i] == x;
        InBlocks(a - threads, i, per, threads);
      }
    }
  }

  /** The cache the constructor builds. */
  lemma StartGood(threads: nat, per: nat, elems: seq<Elem>, hashSize: nat, home: int -> int)
    requires threads > 0 && per > 0 && threads * per <= |elems| < hashSize && |elems| <= LOCK && Homes(home, hashSize)
    ensures Good(Start(threads, per, elems, hashSize), home)
    ensures View(Start(threads, per, elems, hashSize).g) == map[]
    ensures forall t :: 0 <= t < threads ==> Held(Start(threads, per, elems, hashSize), t) == per
  {
    var c := Start(threads, per, elems, hashSize);
    StartPartition(threads, per);
    forall x | x != FREE ensures !Listed(c, x) && x !in c.g.slots {}
    assert Keys(c.g) == {};
  }

  /** One thread, from the constructor on: whatever is at the head of its list survives the next
      per - 2 calls, whatever they are, and can still be looked up.  Like all runs here these are runs
      of `LruCache.Step`, so runs of the class up to a first overrun. */
  lemma JustUsedSurvives(threads: nat, per: nat, elems: seq<Elem>, hashSize: nat, ix: Engine, home: int -> int,
                         t: int, before: seq<Turn>, after: seq<Turn>, x: int)
    requires threads > 0 && per > 0 && threads * per <= |elems| < hashSize && |elems| <= LOCK && Homes(home, hashSize)
    requires Lawful(ix, home)
    requires 0 <= t < threads && AllBy(before, t) && AllBy(after, t)
    requires SafeRun(Start(threads, per, elems, hashSize), ix, home, before + after)
    requires SafeRun(Start(threads, per, elems, hashSize), ix, home, before)
    requires Holds(Run(Start(threads, per, elems, hashSize), ix, home, before).rows, Place(t, 0), x)
    requires |after| <= per - 2
    ensures var mid := Run(Start(threads, per, elems, hashSize), ix, home, before);
            var end := Run(Start(threads, per, elems, hashSize), ix, home, before + after);
            Listed(end, x) && KeyKept(mid, end, x) && mid.g.elems[x].key in Keys(end.g)
  {
    var c := Start(threads, per, elems, hashSize);
    StartGood(threads, per, elems, hashSize, home);
    RunSplit(c, ix, home, before, after);
    RunGood(c, ix, home, before);
    AloneRoomy(c, ix, home, before, t, per);
    HeadSurvives(Run(c, ix, home, before), per, ix, home, t, after, x);
  }

  lemma HeadSurvives(c: Cache, per: nat, ix: Engine, home: int -> int, t: int, turns: seq<Turn>, x: int)
    requires Good(c, home) && Lawful(ix, home) && 0 <= t < c.threads && Held(c, t) >= per && AllBy(turns, t)
    requires SafeRun(c, ix, home, turns) && Holds(c.rows, Place(t, 0), x) && |turns| <= per - 2
    ensures var r := Run(c, ix, home, turns); Listed(r, x) && KeyKept(c, r, x) && c.g.elems[x].key in Keys(r.g)
  {
    AloneRoomy(c, ix, home, turns, t, per);
    HeadRoom(c, t, x);
    assert x in c.rows[t];
    assert Listed(c, x);
    Survives(c, ix, home, turns, per, x);
  }

  // ---- the bound is exact ----

  /** Every turn is one of thread t that adds a key not stored at that time. */
  ghost predicate AllNew(c: Cache, ix: Engine, home: int -> int, turns: seq<Turn>, t: int)
    requires SafeRun(c, ix, home, turns)
    decreases |turns|
  {
    turns == [] ||
    (turns[0].t == t && Adds(turns[0].call) && turns[0].call.k !in Keys(c.g)
     && AllNew(Step(c, ix, t, turns[0].call).c, ix, home, turns[1..], t))
  }

  /** With new keys only, x is evicted by exactly the turn that finds it without room: it is in
      the cache after Room(c, x) such turns and out of it after one more. */
  lemma {:induction false} EvictedExactlyThen(c: Cache, ix: Engine, home: int -> int, turns: seq<Turn>, t: int, x: int)
    requires Good(c, home) && Lawful(ix, home) && SafeRun(c, ix, home, turns) && AllNew(c, ix, home, turns, t)
    requires 0 <= t < c.threads && Listed(c, x) && Somewhere(c.rows, x) && PlaceOf(c.rows, x).row == t
    ensures |turns| <= Room(c, x) ==> Listed(Run(c, ix, home, turns), x)
    ensures |turns| == Room(c, x) + 1 ==> !Listed(Run(c, ix, home, turns), x)
    decreases |turns|
  {
    if turns == [] {
      assert Pool(c, t) != [];
    } else {
      NewTurn(c, ix, home, t, turns[0].call, x);
      var c' := Step(c, ix, t, turns[0].call).c;
      if Room(c, x) > 0 {
        EvictedExactlyThen(c', ix, home, turns[1..], t, x);
      } else {
        assert |turns| == 1 ==> Run(c, ix, home, turns) == c';
      }
    }
  }

  lemma NewTurn(c: Cache, ix: Engine, home: int -> int, t: int, call: Call, x: int)
    requires Good(c, home) && Lawful(ix, home) && Fits(c, t) && Safe(c, ix, home, t, call)
    requires call.k !in Keys(c.g) && Adds(call)
    requires 0 <= t < c.threads && Listed(c, x) && Somewhere(c.rows, x) && PlaceOf(c.rows, x).row == t
    ensures var c' := Step(c, ix, t, call).c;
            && Good(c', home) && c'.threads == c.threads && Room(c, x) >= 0
            && (Room(c, x) == 0 ==> !Listed(c', x))
            && (Room(c, x) > 0 ==>
                Listed(c', x) && Somewhere(c'.rows, x) && PlaceOf(c'.rows, x).row == t && Room(c', x) == Room(c, x) - 1)
  {
    CallMeaning(c, ix, home, t, call);
    GrownAges(c, ix, home, t, call, x);
  }
}
