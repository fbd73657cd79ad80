/**
 The whole cache of src/LFLRUHashTable.h, called by one thread at a time: what `get`, `set`,
 `insert` and `insertOrSet` do to the index, the LRU lists and the free lists together.
 */
module LruCache {
  import opened Index
  import opened IndexTable
  import opened IndexMap
  import opened IndexRemove
  import opened IndexEngine
  import opened LruRows
  import opened Sealing

  datatype Call =
    | CallGet(k: int)
    | CallSet(k: int, v: int)
    | CallInsert(k: int, v: int)
    | CallInsertOrSet(k: int, v: int)

  /** owned is the number of elements on some list: threads * (numElements / threads). */
  datatype Cache = Cache(g: Table, threads: int, owned: int, rows: seq<seq<int>>)

  datatype Done = Done(c: Cache, res: Res)

  // ---- one call ----

  /** unlinkElement leaves the two elements at either end of a list where they are. */
  predicate Movable(row: seq<int>, pos: int) { 2 <= pos <= |row| - 3 }

  /** Element x after a hit by thread t. */
  ghost function Touched(rows: seq<seq<int>>, t: int, x: int): (r: seq<seq<int>>)
    requires 0 <= t < |rows|
    ensures |r| == |rows|
  {
    if !Somewhere(rows, x) then rows
    else
      var p := PlaceOf(rows, x);
      if Movable(rows[p.row], p.pos) then Moved(rows, p.row, p.pos, t) else rows
  }

  /** The element with key k, or FREE. */
  ghost function Found(g: Table, k: int): int {
    if k in Keys(g) then g.slots[SlotOf(g, k)] else FREE
  }

  /** The free list of thread t. */
  function Pool(c: Cache, t: int): seq<int> {
    if 0 <= t < c.threads && |c.rows| == 2 * c.threads then c.rows[c.threads + t] else []
  }

  ghost predicate Fits(c: Cache, t: int) {
    0 <= t < c.threads && |c.rows| == 2 * c.threads && Pool(c, t) != []
  }

  /** The element thread t brings along to insert. */
  function Spare(c: Cache, t: int): int
    requires Pool(c, t) != []
  {
    Pool(c, t)[0]
  }

  ghost function Added(c: Cache, ix: Engine, t: int, op: Op): (r: Cache)
    requires Fits(c, t)
    ensures |r.rows| == |c.rows| && r.rows[t] != []
  {
    Cache(ix(c.g, op).t, c.threads, c.owned, Moved(c.rows, c.threads + t, 0, t))
  }

  function Tail(c: Cache, t: int): int
    requires 0 <= t < |c.rows| && c.rows[t] != []
  {
    c.rows[t][|c.rows[t]| - 1]
  }

  /** The last element of the list of t leaves the index and goes to the free list. */
  ghost function Evicted(c: Cache, ix: Engine, t: int): Cache
    requires 0 <= t < c.threads && |c.rows| == 2 * c.threads && c.rows[t] != []
  {
    Cache(ix(c.g, Remove(Tail(c, t))).t, c.threads, c.owned,
          Moved(c.rows, t, |c.rows[t]| - 1, c.threads + t))
  }

  ghost function Grown(c: Cache, ix: Engine, t: int, op: Op): Cache
    requires Fits(c, t)
  {
    var c1 := Added(c, ix, t, op);
    if Pool(c1, t) == [] then Evicted(c1, ix, t) else c1
  }

  /** The index operation of a call. */
  function OpOf(c: Cache, t: int, call: Call): Op
    requires Pool(c, t) != []
  {
    match call
    case CallGet(k) => Get(k)
    case CallSet(k, v) => Set(k, v)
    case CallInsert(k, v) => Insert(k, v, Spare(c, t))
    case CallInsertOrSet(k, v) => InsertOrSet(k, v, Spare(c, t))
  }

  predicate Adds(call: Call) { call.CallInsert? || call.CallInsertOrSet? }

  ghost function Step(c: Cache, ix: Engine, t: int, call: Call): Done
    requires Fits(c, t)
  {
    var op := OpOf(c, t, call);
    var a := ix(c.g, op);
    var x := Found(c.g, call.k);
    if x != FREE then
      Done(c.(g := a.t, rows := if call.CallInsert? then c.rows else Touched(c.rows, t, x)), a.res)
    else if Adds(call) then Done(Grown(c, ix, t, op), a.res)
    else Done(c.(g := a.t), a.res)
  }

  // ---- the invariant ----

  ghost predicate Listed(c: Cache, x: int) {
    exists u :: 0 <= u < c.threads && u < |c.rows| && x in c.rows[u]
  }

  /** On an LRU list exactly when indexed. */
  ghost predicate Indexed(c: Cache) {
    forall x {:trigger Listed(c, x)} :: x != FREE ==> (x in c.g.slots <==> Listed(c, x))
  }

  ghost predicate Good(c: Cache, home: int -> int) {
    && Sound(c.g, home)
    && 0 < c.threads && |c.rows| == 2 * c.threads && 0 <= c.owned <= |c.g.elems|
    && Partition(c.rows, c.owned) && Indexed(c)
    && forall t {:trigger Pool(c, t)} :: 0 <= t < c.threads ==> Pool(c, t) != []
  }

  /** `Good` for callers that only pass it on: it is unfolded where `KeptIs` calls for it. */
  ghost predicate Kept(c: Cache, home: int -> int) {
    forall u {:trigger Look(u)} :: Look(u) ==> Good(c, home)
  }

  lemma KeptIs(c: Cache, home: int -> int)
    ensures Kept(c, home) <==> Good(c, home)
  {
    assert Look(0);
  }

  ghost predicate Evicts(c: Cache, t: int, call: Call)
    requires Fits(c, t)
  {
    Adds(call) && Found(c.g, call.k) == FREE && |Pool(c, t)| == 1
  }

  /** If the call evicts, shifting the run behind the evicted element is safe. */
  ghost predicate Safe(c: Cache, ix: Engine, home: int -> int, t: int, call: Call)
    requires Fits(c, t)
  {
    Evicts(c, t, call) ==>
      var c1 := Added(c, ix, t, OpOf(c, t, call));
      var z := Tail(c1, t);
      Sound(c1.g, home) && 0 <= z < |c1.g.elems| && z in c1.g.slots && ShiftIsSafe(c1.g, home, z)
  }

  lemma FoundIs(g: Table, home: int -> int, k: int)
    requires Sound(g, home)
    ensures Found(g, k) != FREE <==> k in Keys(g)
    ensures k in Keys(g) ==>
              var x := Found(g, k); 0 <= x < |g.elems| && x in g.slots && g.elems[x].key == k
  {}

  lemma PlaceOnList(c: Cache, home: int -> int, x: int)
    requires Good(c, home) && Listed(c, x)
    ensures Somewhere(c.rows, x) && 0 <= PlaceOf(c.rows, x).row < c.threads
    ensures 0 <= x < c.owned
  {
    var u :| 0 <= u < c.threads && u < |c.rows| && x in c.rows[u];
    var i :| 0 <= i < |c.rows[u]| && c.rows[u][i] == x;
    PlaceIs(c.rows, Place(u, i), x);
  }

  lemma SpareFree(c: Cache, home: int -> int, t: int)
    requires Good(c, home) && 0 <= t < c.threads
    ensures Fits(c, t)
    ensures 0 <= Spare(c, t) < c.owned && Spare(c, t) !in c.g.slots && !Listed(c, Spare(c, t))
    ensures Spare(c, t) != FREE
  {
    var e := Spare(c, t);
    assert Pool(c, t) != [];
    PlaceIs(c.rows, Place(c.threads + t, 0), e);
    if Listed(c, e) { PlaceOnList(c, home, e); }
  }

  /** Moving an element between LRU lists. */
  lemma {:induction false} ListMoveListed(c: Cache, c': Cache, a: int, i: int, b: int, x: int)
    requires |c.rows| == 2 * c.threads && Disjoint(c.rows) && InRow(c.rows, a, i) && 0 <= b < |c.rows|
    requires c'.rows == Moved(c.rows, a, i, b) && c'.threads == c.threads
    ensures Listed(c', x) <==> if x == c.rows[a][i] then b < c.threads else Listed(c, x)
  {
    if Listed(c', x) {
      var u :| 0 <= u < c'.threads && u < |c'.rows| && x in c'.rows[u];
      MovedMembers(c.rows, a, i, b, u, x);
    }
    if Listed(c, x) {
      var u :| 0 <= u < c.threads && u < |c.rows| && x in c.rows[u];
      MovedMembers(c.rows, a, i, b, u, x);
    }
    MovedMembers(c.rows, a, i, b, b, x);
  }

  lemma MovedGood(c: Cache, home: int -> int, i: int, a: int, b: int, g: Table)
    requires Good(c, home) && InRow(c.rows, a, i) && 0 <= b < |c.rows|
    requires a >= c.threads && |c.rows[a]| == 1 ==> a == b
    requires Sound(g, home) && |g.elems| == |c.g.elems|
    requires forall x {:trigger x in g.slots} :: x != FREE ==>
               (x in g.slots <==> if x == c.rows[a][i] then b < c.threads else x in c.g.slots)
    ensures Good(Cache(g, c.threads, c.owned, Moved(c.rows, a, i, b)), home)
  {
    var c' := Cache(g, c.threads, c.owned, Moved(c.rows, a, i, b));
    MovedPartition(c.rows, a, i, b, c.owned);
    forall x | x != FREE ensures x in c'.g.slots <==> Listed(c', x) {
      ListMoveListed(c, c', a, i, b, x);
      assert Listed(c, x) <==> x in c.g.slots;
    }
    forall t | 0 <= t < c.threads ensures Pool(c', t) != [] {
      assert Pool(c, t) != [];
    }
  }

  lemma TouchedGood(c: Cache, home: int -> int, t: int, x: int, g: Table)
    requires Good(c, home) && 0 <= t < c.threads && Listed(c, x)
    requires Sound(g, home) && |g.elems| == |c.g.elems| && g.slots == c.g.slots
    ensures Good(Cache(g, c.threads, c.owned, Touched(c.rows, t, x)), home)
  {
    PlaceOnList(c, home, x);
    var p := PlaceOf(c.rows, x);
    assert x in c.g.slots;
    if Movable(c.rows[p.row], p.pos) {
      MovedGood(c, home, p.pos, p.row, t, g);
    } else {
      SameGood(c, home, g);
    }
  }

  lemma SameGood(c: Cache, home: int -> int, g: Table)
    requires Good(c, home) && Sound(g, home) && |g.elems| == |c.g.elems| && g.slots == c.g.slots
    ensures Good(c.(g := g), home)
  {
    var c' := c.(g := g);
    forall x | x != FREE ensures x in c'.g.slots <==> Listed(c', x) {
      assert Listed(c, x) <==> Listed(c', x);
    }
    forall t | 0 <= t < c.threads ensures Pool(c', t) != [] {
      assert Pool(c, t) != [];
    }
  }

  // ---- what a call means for the map ----

  /** add leaves a stored key alone, set needs one. */
  function Updated(m: map<int, int>, call: Call): map<int, int> {
    match call
    case CallGet(_) => m
    case CallSet(k, v) => if k in m then m[k := v] else m
    case CallInsert(k, v) => if k in m then m else m[k := v]
    case CallInsertOrSet(k, v) => m[k := v]
  }

  function Answer(m: map<int, int>, call: Call): Res {
    match call
    case CallGet(k) => if k in m then Got(m[k]) else NotFound
    case CallSet(k, _) => if k in m then Ok else Refused
    case CallInsert(k, _) => if k in m then Refused else Ok
    case CallInsertOrSet(k, _) => if k in m then Refused else Ok
  }

  /** The key an evicting call drops: that of the last element on the list of t. */
  ghost function Dropped(c: Cache, t: int, call: Call): set<int>
    requires Fits(c, t)
  {
    if !Evicts(c, t, call) then {}
    else if c.rows[t] == [] then {call.k}
    else
      var z := Tail(c, t);
      if 0 <= z < |c.g.elems| then {c.g.elems[z].key} else {}
  }

  /** Calls that find the key. */
  lemma HitGood(c: Cache, ix: Engine, home: int -> int, t: int, call: Call)
    requires Good(c, home) && 0 <= t < c.threads && call.k in Keys(c.g) && Lawful(ix, home)
    ensures Fits(c, t)
    ensures var d := Step(c, ix, t, call);
            && Good(d.c, home) && d.res == Answer(View(c.g), call) && View(d.c.g) == Updated(View(c.g), call)
            && SameKeyed(c.g, d.c.g)
  {
    SpareFree(c, home, t);
    FoundIs(c.g, home, call.k);
    var x := Found(c.g, call.k);
    assert Listed(c, x);
    HitMeets(c.g, ix, home, OpOf(c, t, call), call);
    if call.CallInsert? {
      SameGood(c, home, ix(c.g, OpOf(c, t, call)).t);
    } else {
      TouchedGood(c, home, t, x, ix(c.g, OpOf(c, t, call)).t);
    }
  }

  /** What the index does for a stored key. */
  lemma HitMeets(g: Table, ix: Engine, home: int -> int, op: Op, call: Call)
    requires Sound(g, home) && Lawful(ix, home) && call.k in Keys(g)
    requires op == match call
                   case CallGet(k) => Get(k)
                   case CallSet(k, v) => Set(k, v)
                   case CallInsert(k, v) => if op.Insert? then Insert(k, v, op.e) else op
                   case CallInsertOrSet(k, v) => if op.InsertOrSet? then InsertOrSet(k, v, op.e) else op
    requires Adds(call) ==> (call.CallInsert? <==> op.Insert?) && (call.CallInsertOrSet? <==> op.InsertOrSet?)
                            && 0 <= op.e < |g.elems| && op.e !in g.slots
    ensures var a := ix(g, op);
            && a.res == Answer(View(g), call) && View(a.t) == Updated(View(g), call) && SameKeyed(g, a.t)
            && Sound(a.t, home) && a.t.slots == g.slots
  {
    LawfulAt(ix, home, g, op);
  }

  /** get and set of a key that is not stored change nothing. */
  lemma MissGood(c: Cache, ix: Engine, home: int -> int, t: int, call: Call)
    requires Good(c, home) && 0 <= t < c.threads && call.k !in Keys(c.g) && !Adds(call) && Lawful(ix, home)
    ensures Fits(c, t)
    ensures var d := Step(c, ix, t, call);
            && Good(d.c, home) && d.res == Answer(View(c.g), call) && View(d.c.g) == Updated(View(c.g), call)
            && d.c.rows == c.rows && SameKeyed(c.g, d.c.g)
  {
    SpareFree(c, home, t);
    FoundIs(c.g, home, call.k);
    var op := OpOf(c, t, call);
    LawfulAt(ix, home, c.g, op);
    SameGood(c, home, ix(c.g, op).t);
  }

  /** All but the free-list clause of Good. */
  ghost predicate Nearly(c: Cache, home: int -> int) {
    && Sound(c.g, home)
    && 0 < c.threads && |c.rows| == 2 * c.threads && 0 <= c.owned <= |c.g.elems|
    && Partition(c.rows, c.owned) && Indexed(c)
  }

  /** Moving an element from row a to row b, when g' has exactly the elements that should be
      indexed afterwards. */
  lemma MoveNearly(c: Cache, home: int -> int, a: int, i: int, b: int, g': Table)
    requires Nearly(c, home) && InRow(c.rows, a, i) && 0 <= b < |c.rows| && |g'.elems| == |c.g.elems|
    requires forall x {:trigger x in g'.slots} :: x != FREE ==>
               (x in g'.slots <==> if x == c.rows[a][i] then b < c.threads else x in c.g.slots)
    ensures var c' := Cache(g', c.threads, c.owned, Moved(c.rows, a, i, b));
            Partition(c'.rows, c.owned) && Indexed(c') && (Sound(g', home) ==> Nearly(c', home))
  {
    var c' := Cache(g', c.threads, c.owned, Moved(c.rows, a, i, b));
    MovedPartition(c.rows, a, i, b, c.owned);
    forall x | x != FREE ensures x in c'.g.slots <==> Listed(c', x) {
      ListMoveListed(c, c', a, i, b, x);
      assert Listed(c, x) <==> x in c.g.slots;
    }
  }

  lemma AddedNearly(c: Cache, ix: Engine, home: int -> int, t: int, call: Call)
    requires Good(c, home) && 0 <= t < c.threads && call.k !in Keys(c.g) && Adds(call) && Lawful(ix, home)
    ensures Fits(c, t) && 0 <= Spare(c, t) < c.owned
    ensures var op := OpOf(c, t, call);
            var c1 := Added(c, ix, t, op);
            && Nearly(c1, home) && InsertMeets(c.g, home, op, ix(c.g, op))
  {
    SpareFree(c, home, t);
    var op := OpOf(c, t, call);
    var a := ix(c.g, op);
    LawfulAt(ix, home, c.g, op);
    MoveNearly(c, home, c.threads + t, 0, t, a.t);
  }

  lemma TailIndexed(c: Cache, home: int -> int, t: int)
    requires Nearly(c, home) && 0 <= t < c.threads && c.rows[t] != []
    ensures 0 <= Tail(c, t) < c.owned && Tail(c, t) in c.g.slots && Tail(c, t) != FREE
  {
    var z, i := Tail(c, t), |c.rows[t]| - 1;
    assert Listed(c, z);
    PlaceIs(c.rows, Place(t, i), z);
  }

  lemma EvictedPools(c: Cache, home: int -> int, t: int, g': Table)
    requires Nearly(c, home) && 0 <= t < c.threads && c.rows[t] != []
    requires forall u {:trigger Pool(c, u)} :: 0 <= u < c.threads && u != t ==> Pool(c, u) != []
    ensures var c' := Cache(g', c.threads, c.owned, Moved(c.rows, t, |c.rows[t]| - 1, c.threads + t));
            forall u {:trigger Pool(c', u)} :: 0 <= u < c.threads ==> Pool(c', u) != []
  {
    var c' := Cache(g', c.threads, c.owned, Moved(c.rows, t, |c.rows[t]| - 1, c.threads + t));
    forall u | 0 <= u < c.threads ensures Pool(c', u) != [] {
      if u != t { assert Pool(c, u) != []; }
    }
  }

  lemma EvictedNearly(c: Cache, home: int -> int, t: int, g': Table)
    requires Nearly(c, home) && 0 <= t < c.threads && c.rows[t] != [] && |g'.elems| == |c.g.elems|
    requires forall u {:trigger Pool(c, u)} :: 0 <= u < c.threads && u != t ==> Pool(c, u) != []
    requires forall x {:trigger x in g'.slots} :: x != FREE ==> (x in g'.slots <==> x in c.g.slots && x != Tail(c, t))
    ensures Good(Cache(g', c.threads, c.owned, Moved(c.rows, t, |c.rows[t]| - 1, c.threads + t)), home) <==>
              Sound(g', home)
  {
    MoveNearly(c, home, t, |c.rows[t]| - 1, c.threads + t, g');
    EvictedPools(c, home, t, g');
  }

  /** Eviction: the last element is indexed, so it is always found. */
  lemma EvictedGood(c: Cache, ix: Engine, home: int -> int, t: int)
    requires Nearly(c, home) && 0 <= t < c.threads && c.rows[t] != [] && Lawful(ix, home)
    requires forall u {:trigger Pool(c, u)} :: 0 <= u < c.threads && u != t ==> Pool(c, u) != []
    ensures 0 <= Tail(c, t) < c.owned && Tail(c, t) in c.g.slots
    ensures RemoveMeets(c.g, home, Tail(c, t), ix(c.g, Remove(Tail(c, t))))
    ensures Good(Evicted(c, ix, t), home) <==> ShiftIsSafe(c.g, home, Tail(c, t))
  {
    TailIndexed(c, home, t);
    LawfulRemove(c.g, ix, home, Tail(c, t));
    EvictedMeets(c, ix, home, t);
  }

  lemma EvictedMeets(c: Cache, ix: Engine, home: int -> int, t: int)
    requires Nearly(c, home) && 0 <= t < c.threads && c.rows[t] != [] && 0 <= Tail(c, t) < |c.g.elems|
    requires forall u {:trigger Pool(c, u)} :: 0 <= u < c.threads && u != t ==> Pool(c, u) != []
    requires RemoveMeets(c.g, home, Tail(c, t), ix(c.g, Remove(Tail(c, t))))
    ensures Good(Evicted(c, ix, t), home) <==> ShiftIsSafe(c.g, home, Tail(c, t))
  {
    EvictedNearly(c, home, t, ix(c.g, Remove(Tail(c, t))).t);
  }

  lemma LawfulRemove(g: Table, ix: Engine, home: int -> int, z: int)
    requires Sound(g, home) && Lawful(ix, home) && 0 <= z < |g.elems| && z in g.slots
    ensures RemoveMeets(g, home, z, ix(g, Remove(z)))
  {
    LawfulAt(ix, home, g, Remove(z));
  }

  lemma AddedRows(c: Cache, ix: Engine, home: int -> int, t: int, call: Call)
    requires Good(c, home) && 0 <= t < c.threads && Adds(call)
    ensures Fits(c, t)
    ensures var c1 := Added(c, ix, t, OpOf(c, t, call));
            && c1.rows[t] == [Spare(c, t)] + c.rows[t]
            && Pool(c1, t) == Pool(c, t)[1..]
            && forall u {:trigger Pool(c1, u)} :: 0 <= u < c.threads && u != t ==>
                 Pool(c1, u) == Pool(c, u) && Pool(c1, u) != []
  {
    SpareFree(c, home, t);
    assert Cut(Pool(c, t), 0) == Pool(c, t)[1..];
    var c1 := Added(c, ix, t, OpOf(c, t, call));
    forall u | 0 <= u < c.threads && u != t ensures Pool(c1, u) == Pool(c, u) && Pool(c1, u) != [] {
      assert Pool(c, u) != [];
    }
  }

  /** The evicted element was last on the list before the call, unless the list was empty. */
  lemma TailOfAdded(c: Cache, ix: Engine, home: int -> int, t: int, call: Call)
    requires Good(c, home) && 0 <= t < c.threads && call.k !in Keys(c.g) && Adds(call) && Lawful(ix, home)
    ensures Fits(c, t)
    ensures var c1 := Added(c, ix, t, OpOf(c, t, call));
            && Tail(c1, t) == (if c.rows[t] == [] then Spare(c, t) else Tail(c, t))
            && 0 <= Tail(c1, t) < |c1.g.elems|
            && (c.rows[t] != [] ==> 0 <= Tail(c, t) < |c.g.elems| && Tail(c, t) != Spare(c, t))
            && c1.g.elems[Tail(c1, t)].key == if c.rows[t] == [] then call.k else c.g.elems[Tail(c, t)].key
  {
    SpareFree(c, home, t);
    AddedNearly(c, ix, home, t, call);
    AddedRows(c, ix, home, t, call);
    if c.rows[t] != [] {
      assert Listed(c, Tail(c, t));
      PlaceOnList(c, home, Tail(c, t));
    }
  }

  /** insert and insertOrSet of a new key. */
  lemma GrownGood(c: Cache, ix: Engine, home: int -> int, t: int, call: Call)
    requires Good(c, home) && 0 <= t < c.threads && call.k !in Keys(c.g) && Adds(call) && Lawful(ix, home)
    ensures Fits(c, t) && 0 <= Spare(c, t) < |c.g.elems|
    ensures var g := Grown(c, ix, t, OpOf(c, t, call));
            && View(g.g) == View(c.g)[call.k := call.v] - Dropped(c, t, call)
            && (Good(g, home) <==> Safe(c, ix, home, t, call))
            && g.g.elems == c.g.elems[Spare(c, t) := Elem(call.k, call.v)]
            && EvictionFinds(c, ix, t, call)
  {
    FoundIs(c.g, home, call.k);
    AddedNearly(c, ix, home, t, call);
    AddedRows(c, ix, home, t, call);
    var c1 := Added(c, ix, t, OpOf(c, t, call));
    if Pool(c1, t) == [] {
      GrownEvicts(c, ix, home, t, call, c1);
    } else {
      NearlyGood(c1, home, t);
    }
  }

  lemma NearlyGood(c: Cache, home: int -> int, t: int)
    requires Nearly(c, home) && Pool(c, t) != []
    requires forall u {:trigger Pool(c, u)} :: 0 <= u < c.threads && u != t ==> Pool(c, u) != []
    ensures Good(c, home)
  {}

  /** The case in which the last spare element is used. */
  lemma GrownEvicts(c: Cache, ix: Engine, home: int -> int, t: int, call: Call, c1: Cache)
    requires Good(c, home) && 0 <= t < c.threads && call.k !in Keys(c.g) && Adds(call) && Lawful(ix, home) && Fits(c, t)
    requires c1 == Added(c, ix, t, OpOf(c, t, call)) && Nearly(c1, home) && Evicts(c, t, call)
    requires forall u {:trigger Pool(c1, u)} :: 0 <= u < c.threads && u != t ==> Pool(c1, u) != []
    requires View(c1.g) == View(c.g)[call.k := call.v]
    ensures var g := Evicted(c1, ix, t);
            && View(g.g) == View(c.g)[call.k := call.v] - Dropped(c, t, call)
            && (Good(g, home) <==> Safe(c, ix, home, t, call))
            && g.g.elems == c1.g.elems && EvictionFinds(c, ix, t, call)
  {
    EvictedGood(c1, ix, home, t);
    TailOfAdded(c, ix, home, t, call);
  }

  /** The removal inside an evicting call succeeds, so insertOrSet does not abort. */
  ghost predicate EvictionFinds(c: Cache, ix: Engine, t: int, call: Call)
    requires Fits(c, t)
  {
    Evicts(c, t, call) ==>
      var c1 := Added(c, ix, t, OpOf(c, t, call));
      ix(c1.g, Remove(Tail(c1, t))).res == Ok
  }

  ghost predicate MeansMap(c: Cache, ix: Engine, home: int -> int, t: int, call: Call, d: Done)
    requires Fits(c, t)
  {
    && d.res == Answer(View(c.g), call)
    && View(d.c.g) == Updated(View(c.g), call) - Dropped(c, t, call)
    && (Good(d.c, home) <==> Safe(c, ix, home, t, call))
    && EvictionFinds(c, ix, t, call)
  }

  lemma GrownMeaning(c: Cache, ix: Engine, home: int -> int, t: int, call: Call)
    requires Good(c, home) && 0 <= t < c.threads && Lawful(ix, home) && call.k !in Keys(c.g) && Adds(call)
    ensures Fits(c, t) && Step(c, ix, t, call) == Done(Grown(c, ix, t, OpOf(c, t, call)), Ok)
  {
    FoundIs(c.g, home, call.k);
    AddedNearly(c, ix, home, t, call);
  }

  lemma NoEviction(c: Cache, ix: Engine, home: int -> int, t: int, call: Call, d: Done)
    requires Fits(c, t) && !Evicts(c, t, call)
    requires Good(d.c, home) && d.res == Answer(View(c.g), call) && View(d.c.g) == Updated(View(c.g), call)
    ensures MeansMap(c, ix, home, t, call, d)
  {
    assert Updated(View(c.g), call) - {} == Updated(View(c.g), call);
  }

  /** Every call answers as the map does, changes the map as its name says apart from the key
      it evicts, and finds what it evicts; it keeps the partition, the free lists and the index
      exactly when its eviction, if any, is safe. */
  lemma CallMeaning(c: Cache, ix: Engine, home: int -> int, t: int, call: Call)
    requires Good(c, home) && 0 <= t < c.threads && Lawful(ix, home)
    ensures Fits(c, t) && MeansMap(c, ix, home, t, call, Step(c, ix, t, call))
  {
    FoundIs(c.g, home, call.k);
    if call.k in Keys(c.g) {
      HitGood(c, ix, home, t, call);
      NoEviction(c, ix, home, t, call, Step(c, ix, t, call));
    } else if Adds(call) {
      GrownMeaning(c, ix, home, t, call);
      GrownGood(c, ix, home, t, call);
    } else {
      MissGood(c, ix, home, t, call);
      NoEviction(c, ix, home, t, call, Step(c, ix, t, call));
    }
  }
}
