/**
 Which elements a call moves, told of the rows before and after alone, and how long an element
 stays in the cache after its key has been used.
 */
module LruMoves {
  import opened Index
  import opened IndexMap
  import opened IndexEngine
  import opened LruRows
  import opened LruCache
  import opened LruTheorems

  /** Row c without place p. */
  function Without(rows: seq<seq<int>>, p: Place, c: int): seq<int>
    requires 0 <= c < |rows| && (c == p.row ==> 0 <= p.pos < |rows[c]|)
  {
    if c == p.row then rows[c][..p.pos] + rows[c][p.pos + 1..] else rows[c]
  }

  /** The element at place p has come to the head of row t, and all others are in their rows in
      the order they had. */
  ghost predicate ToHead(rows: seq<seq<int>>, rows': seq<seq<int>>, p: Place, t: int) {
    && InRow(rows, p.row, p.pos) && |rows'| == |rows| && 0 <= t < |rows|
    && rows'[t] != [] && rows'[t][0] == rows[p.row][p.pos]
    && forall c {:trigger rows'[c]} :: 0 <= c < |rows| ==>
         (if c == t then rows'[c][1..] else rows'[c]) == Without(rows, p, c)
  }

  lemma MovedToHead(rows: seq<seq<int>>, a: int, i: int, b: int)
    requires InRow(rows, a, i) && 0 <= b < |rows|
    ensures ToHead(rows, Moved(rows, a, i, b), Place(a, i), b)
  {
    var r := Moved(rows, a, i, b);
    forall c | 0 <= c < |rows| ensures (if c == b then r[c][1..] else r[c]) == Without(rows, Place(a, i), c) {}
  }

  /** Where another element of row c goes. */
  ghost function OtherGoes(rows: seq<seq<int>>, rows': seq<seq<int>>, p: Place, t: int, c: int, j: int): (r: int)
    requires ToHead(rows, rows', p, t) && InRow(rows, c, j) && p != Place(c, j)
    ensures 0 <= r < |rows'[c]| && rows'[c][r] == rows[c][j]
  {
    var j0 := if c == p.row && j > p.pos then j - 1 else j;
    assert Without(rows, p, c)[j0] == rows[c][j];
    assert (if c == t then rows'[c][1..] else rows'[c]) == Without(rows, p, c);
    if c == t then j0 + 1 else j0
  }

  /** Any two others keep their rows and their order. */
  lemma OthersInOrder(rows: seq<seq<int>>, rows': seq<seq<int>>, p: Place, t: int, c: int, j: int, l: int)
    requires ToHead(rows, rows', p, t) && InRow(rows, c, j) && InRow(rows, c, l) && j < l
    requires p != Place(c, j) && p != Place(c, l)
    ensures exists j', l' :: 0 <= j' < l' < |rows'[c]| && rows'[c][j'] == rows[c][j] && rows'[c][l'] == rows[c][l]
  {
    var j', l' := OtherGoes(rows, rows', p, t, c, j), OtherGoes(rows, rows', p, t, c, l);
    assert rows'[c][j'] == rows[c][j] && rows'[c][l'] == rows[c][l];
  }

  /** Place p of an LRU list holds the element with key k. */
  ghost predicate KeyAt(c: Cache, p: Place, k: int) {
    && InRow(c.rows, p.row, p.pos) && p.row < c.threads
    && var x := c.rows[p.row][p.pos]; 0 <= x < |c.g.elems| && c.g.elems[x].key == k
  }

  lemma KeyAtFound(c: Cache, home: int -> int, p: Place, k: int)
    requires Good(c, home) && KeyAt(c, p, k)
    ensures k in Keys(c.g) && Found(c.g, k) == c.rows[p.row][p.pos] && Listed(c, Found(c.g, k))
    ensures Somewhere(c.rows, Found(c.g, k)) && PlaceOf(c.rows, Found(c.g, k)) == p
  {
    var x := c.rows[p.row][p.pos];
    assert Listed(c, x);
    PlaceOnList(c, home, x);
    PlaceIs(c.rows, p, x);
    var q :| 0 <= q < |c.g.slots| && c.g.slots[q] == x;
    ViewAt(c.g, q);
  }

  /** A call whose key is at place p: get, set and insertOrSet bring the element to the head of the
      caller's list unless it is one of two at either end of its own; then, and for an insertion
      that is refused, all rows stay as they are. */
  lemma HitMoves(c: Cache, ix: Engine, home: int -> int, t: int, call: Call, p: Place)
    requires Good(c, home) && 0 <= t < c.threads && Lawful(ix, home) && KeyAt(c, p, call.k)
    ensures Fits(c, t)
    ensures var c' := Step(c, ix, t, call).c;
            if !call.CallInsert? && 2 <= p.pos <= |c.rows[p.row]| - 3
            then ToHead(c.rows, c'.rows, p, t) else c'.rows == c.rows
  {
    SpareFree(c, home, t);
    KeyAtFound(c, home, p, call.k);
    FoundIs(c.g, home, call.k);
    if !call.CallInsert? && 2 <= p.pos <= |c.rows[p.row]| - 3 { MovedToHead(c.rows, p.row, p.pos, t); }
  }

  /** get and set of a key that is not stored move nothing. */
  lemma MissMoves(c: Cache, ix: Engine, home: int -> int, t: int, call: Call)
    requires Good(c, home) && 0 <= t < c.threads && Lawful(ix, home) && call.k !in Keys(c.g) && !Adds(call)
    ensures Fits(c, t) && Step(c, ix, t, call).c.rows == c.rows
  {
    MissGood(c, ix, home, t, call);
  }

  /** The rows after an insertion that used up the spare elements: row is the list with the new
      element at its head, and its last element is the only spare one now. */
  ghost predicate TailSpared(c: Cache, rows': seq<seq<int>>, t: int, row: seq<int>)
    requires Fits(c, t) && row != []
  {
    && |rows'| == |c.rows|
    && rows'[t] == row[..|row| - 1] && rows'[c.threads + t] == [row[|row| - 1]]
    && forall a {:trigger rows'[a]} :: 0 <= a < |c.rows| && a != t && a != c.threads + t ==> rows'[a] == c.rows[a]
  }

  lemma EvictedRows(c: Cache, c1: Cache, ix: Engine, t: int)
    requires Fits(c, t) && |c.rows[c.threads + t]| == 1 && c1.threads == c.threads
    requires c1.rows == Moved(c.rows, c.threads + t, 0, t)
    ensures TailSpared(c, Evicted(c1, ix, t).rows, t, [c.rows[c.threads + t][0]] + c.rows[t])
  {
    var row := [c.rows[c.threads + t][0]] + c.rows[t];
    assert c1.rows[t] == row;
    assert Cut(row, |row| - 1) == row[..|row| - 1];
  }

  /** insert and insertOrSet of a key that is not stored: the caller's first spare element comes to
      the head of its list; if it was the last one, the tail of the list becomes spare. */
  lemma NewKeyMoves(c: Cache, ix: Engine, home: int -> int, t: int, call: Call)
    requires Good(c, home) && 0 <= t < c.threads && Lawful(ix, home) && call.k !in Keys(c.g) && Adds(call)
    ensures Fits(c, t)
    ensures var rows' := Step(c, ix, t, call).c.rows;
            if |c.rows[c.threads + t]| >= 2 then ToHead(c.rows, rows', Place(c.threads + t, 0), t)
            else TailSpared(c, rows', t, [c.rows[c.threads + t][0]] + c.rows[t])
  {
    GrownMeaning(c, ix, home, t, call);
    AddedRows(c, ix, home, t, call);
    MovedToHead(c.rows, c.threads + t, 0, t);
    if |c.rows[c.threads + t]| == 1 {
      EvictedRows(c, Added(c, ix, t, OpOf(c, t, call)), ix, t);
    }
  }

  // ---- after a use ----

  /** A get, set or insertOrSet that leaves the element with its key, at place p, at the head of the
      list of t: it moves it there, or finds it there. */
  ghost predicate Uses(c: Cache, t: int, call: Call, p: Place) {
    && KeyAt(c, p, call.k) && !call.CallInsert?
    && (2 <= p.pos <= |c.rows[p.row]| - 3 || p == Place(t, 0))
  }

  lemma UsedAtHead(c: Cache, ix: Engine, home: int -> int, t: int, call: Call, p: Place)
    requires Good(c, home) && 0 <= t < c.threads && Lawful(ix, home) && Uses(c, t, call, p)
    ensures Fits(c, t)
    ensures var c', x := Step(c, ix, t, call).c, c.rows[p.row][p.pos];
            && Good(c', home) && c'.threads == c.threads && Holds(c'.rows, Place(t, 0), x)
            && 0 <= x < |c'.g.elems| && c'.g.elems[x].key == call.k
  {
    HitMoves(c, ix, home, t, call, p);
    KeyAtFound(c, home, p, call.k);
    HitGood(c, ix, home, t, call);
  }

  /** Turns of any threads: an element just used survives the next n - 2 of them if its owner and
      the thread of every turn hold at least n elements. */
  lemma UsedSurvivesAll(c: Cache, ix: Engine, home: int -> int, t: int, call: Call, p: Place, turns: seq<Turn>, n: int)
    requires Good(c, home) && 0 <= t < c.threads && Lawful(ix, home) && Uses(c, t, call, p) && Fits(c, t)
    requires var c' := Step(c, ix, t, call).c;
             SafeRun(c', ix, home, turns) && Roomy(c', ix, home, turns, n) && t < |c'.rows| && Held(c', t) >= n
    requires |turns| <= n - 2
    ensures var r, x := Run(Step(c, ix, t, call).c, ix, home, turns), c.rows[p.row][p.pos];
            Listed(r, x) && 0 <= x < |r.g.elems| && r.g.elems[x].key == call.k && call.k in Keys(r.g)
  {
    UsedAtHead(c, ix, home, t, call, p);
    var c', x := Step(c, ix, t, call).c, c.rows[p.row][p.pos];
    HeadRoom(c', t, x);
    assert x in c'.rows[t];
    assert Listed(c', x);
    Survives(c', ix, home, turns, n, x);
  }

  /** One thread, from the constructor on: a key that was got, set or overwritten by the first of
      `turns` survives the elementsPerThread - 2 calls after it, whatever they are, unless the call
      found its element one of two at either end of the list without being its head. */
  lemma UsedSurvives(threads: nat, per: nat, elems: seq<Elem>, hashSize: nat, ix: Engine, home: int -> int,
                     t: int, before: seq<Turn>, turns: seq<Turn>, p: Place)
    requires threads > 0 && per > 0 && threads * per <= |elems| < hashSize && |elems| <= LOCK && Homes(home, hashSize)
    requires Lawful(ix, home) && 0 <= t < threads && AllBy(before, t) && AllBy(turns, t) && 0 < |turns| <= per - 1
    requires SafeRun(Start(threads, per, elems, hashSize), ix, home, before)
    requires SafeRun(Start(threads, per, elems, hashSize), ix, home, before + turns)
    requires Uses(Run(Start(threads, per, elems, hashSize), ix, home, before), t, turns[0].call, p)
    ensures var mid := Run(Start(threads, per, elems, hashSize), ix, home, before);
            var end := Run(Start(threads, per, elems, hashSize), ix, home, before + turns);
            var x, k := mid.rows[p.row][p.pos], turns[0].call.k;
            Listed(end, x) && 0 <= x < |end.g.elems| && end.g.elems[x].key == k && k in Keys(end.g)
  {
    var c := Start(threads, per, elems, hashSize);
    StartGood(threads, per, elems, hashSize, home);
    RunSplit(c, ix, home, before, turns);
    BeforeKept(c, per, ix, home, t, before);
    UsedThen(Run(c, ix, home, before), per, ix, home, t, turns, p);
  }

  lemma BeforeKept(c: Cache, per: nat, ix: Engine, home: int -> int, t: int, before: seq<Turn>)
    requires Good(c, home) && Lawful(ix, home) && 0 <= t < c.threads && Held(c, t) >= per
    requires AllBy(before, t) && SafeRun(c, ix, home, before)
    ensures var r := Run(c, ix, home, before);
            Kept(r, home) && t < |r.rows| && r.threads == c.threads && Held(r, t) >= per
  {
    RunGood(c, ix, home, before);
    AloneRoomy(c, ix, home, before, t, per);
    KeptIs(Run(c, ix, home, before), home);
  }

  lemma UsedThen(c: Cache, per: nat, ix: Engine, home: int -> int, t: int, turns: seq<Turn>, p: Place)
    requires Kept(c, home) && Lawful(ix, home) && 0 <= t < |c.rows| && t < c.threads && Held(c, t) >= per
    requires AllBy(turns, t) && 0 < |turns| <= per - 1 && SafeRun(c, ix, home, turns)
    requires Uses(c, t, turns[0].call, p)
    ensures var r, x, k := Run(c, ix, home, turns), c.rows[p.row][p.pos], turns[0].call.k;
            Listed(r, x) && 0 <= x < |r.g.elems| && r.g.elems[x].key == k && k in Keys(r.g)
  {
    KeptIs(c, home);
    var call := turns[0].call;
    HeldGrows(c, ix, home, t, call);
    UsedAtHead(c, ix, home, t, call, p);
    AloneRoomy(Step(c, ix, t, call).c, ix, home, turns[1..], t, per);
    UsedSurvivesAll(c, ix, home, t, call, p, turns[1..], per);
  }

  /** An element found among the last two is not brought forward and is as close to eviction as
      before: with new keys alone it is evicted by exactly the turn after its room is used up
      (`LruTheorems.EvictedExactlyThen`), the next one if it is last and its owner has one spare
      element. */
  lemma UsedLate(c: Cache, ix: Engine, home: int -> int, t: int, call: Call, p: Place)
    requires Good(c, home) && Lawful(ix, home) && 0 <= t < c.threads
    requires KeyAt(c, p, call.k) && p.pos >= |c.rows[p.row]| - 2
    ensures Fits(c, t)
    ensures var c', x := Step(c, ix, t, call).c, c.rows[p.row][p.pos];
            && Good(c', home) && c'.rows == c.rows && c'.threads == c.threads
            && Listed(c', x) && Somewhere(c'.rows, x) && PlaceOf(c'.rows, x) == p
            && Room(c', x) == |c.rows[p.row]| - p.pos + |c.rows[c.threads + p.row]| - 2
  {
    KeyAtFound(c, home, p, call.k);
    HitGood(c, ix, home, t, call);
    HitMoves(c, ix, home, t, call, p);
    SameRoom(c, Step(c, ix, t, call).c, p);
  }

  lemma SameRoom(c: Cache, c': Cache, p: Place)
    requires c'.rows == c.rows && c'.threads == c.threads && InRow(c.rows, p.row, p.pos) && p.row < c.threads
    requires |c.rows| == 2 * c.threads && Disjoint(c.rows)
    ensures var x := c.rows[p.row][p.pos];
            && Listed(c', x) && Somewhere(c'.rows, x) && PlaceOf(c'.rows, x) == p
            && Room(c', x) == |c.rows[p.row]| - p.pos + |c.rows[c.threads + p.row]| - 2
  {
    var x := c.rows[p.row][p.pos];
    PlaceIs(c'.rows, p, x);
    assert x in c'.rows[p.row];
  }
}
