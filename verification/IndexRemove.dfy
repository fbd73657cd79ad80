/**
 Backward-shift deletion.  The code moves an element into the hole when `home <= hole` as plain
 numbers; `ShiftIsSafe` says, from the table before the call, exactly when that comparison
 leaves every remaining key reachable.
 */
module IndexRemove {
  import opened Index
  import opened IndexTable
  import opened IndexMap

  /** How far the element at position i of a run is from its home. */
  ghost function Depth(elems: seq<Elem>, home: int -> int, start: int, n: int, x: int, i: int): int
    requires 0 <= x < |elems|
  {
    Off(home(elems[x].key), At(start, i, n), n)
  }

  /** How far each element of a run is from its home. */
  ghost function Depths(elems: seq<Elem>, home: int -> int, start: int, n: int, cs: seq<int>): (r: seq<int>)
    ensures |r| == |cs|
    ensures forall i {:trigger r[i]} :: 0 <= i < |cs| && 0 <= cs[i] < |elems| ==>
              r[i] == Depth(elems, home, start, n, cs[i], i)
  {
    seq(|cs|, i requires 0 <= i < |cs| => if 0 <= cs[i] < |elems| then Depth(elems, home, start, n, cs[i], i) else 0)
  }

  /** The test the code makes for element x and the hole at a position of the run. */
  function Test(elems: seq<Elem>, home: int -> int, start: int, n: int): (int, int) -> bool {
    (x, hole) => 0 <= x < |elems| && home(elems[x].key) <= At(start, hole, n)
  }

  /** Scan of the run behind the deleted slot, up to the free slot that closes it: an element
      that moves must not pass its home, and none that should fill the last hole may stay. */
  ghost predicate Scan(moves: (int, int) -> bool, cs: seq<int>, deps: seq<int>, hole: nat, i: nat, owed: bool)
    requires hole < i && |deps| == |cs|
    decreases |cs| - i
  {
    if i >= |cs| - 1 then !owed
    else if moves(cs[i], hole) then deps[i] >= i - hole && Scan(moves, cs, deps, i, i + 1, false)
    else Scan(moves, cs, deps, hole, i + 1, owed || deps[i] >= i - hole)
  }

  /** Deleting element e from table g leaves all other keys reachable. */
  ghost predicate ShiftIsSafe(g: Table, home: int -> int, e: int)
    requires Homes(home, |g.slots|) && 0 <= e < |g.elems|
  {
    var k, n, cs := g.elems[e].key, |g.slots|, Seen(g, home, Remove(e));
    var d := Probe(g.elems, k, cs);
    Scan(Test(g.elems, home, home(k), n), cs, Depths(g.elems, home, home(k), n, cs), d, d + 1, false)
  }

  // ---- what the walk does to positions ----

  /** A stretch of occupied slots closed by a free one. */
  ghost predicate Stretch(cs: seq<int>) {
    && cs != [] && cs[|cs| - 1] == FREE
    && forall b {:trigger cs[b]} :: 0 <= b < |cs| - 1 ==> cs[b] != FREE
  }

  /** The walk of `Shift` over such a stretch. */
  ghost function Walk(moves: (int, int) -> bool, cs: seq<int>, hole: nat, i: nat): (r: seq<int>)
    requires hole < i && hole < |cs|
    ensures |r| == |cs|
    decreases |cs| - i
  {
    if i >= |cs| - 1 then cs[hole := FREE]
    else if moves(cs[i], hole) then Walk(moves, cs[hole := cs[i]], i, i + 1)
    else Walk(moves, cs, hole, i + 1)
  }

  ghost function LastHole(moves: (int, int) -> bool, cs: seq<int>, hole: nat, i: nat): (f: nat)
    requires hole < i && hole < |cs| - 1
    ensures hole <= f < |cs| - 1 && (f == hole || i <= f)
    decreases |cs| - i
  {
    if i >= |cs| - 1 then hole
    else if moves(cs[i], hole) then LastHole(moves, cs, i, i + 1)
    else LastHole(moves, cs, hole, i + 1)
  }

  lemma {:induction false} WalkIsShift(elems: seq<Elem>, home: int -> int, start: int, n: int, cs: seq<int>, hole: nat,
                                       i: nat)
    requires hole < i < |cs| && Stretch(cs) && |elems| <= LOCK
    requires forall b {:trigger cs[b]} :: 0 <= b < |cs| ==> Valid(cs[b], |elems|)
    ensures Shift(elems, home, start, n, cs, hole, i) == Walk(Test(elems, home, start, n), cs, hole, i)
    decreases |cs| - i
  {
    if i < |cs| - 1 {
      var cs1 := cs[hole := cs[i]];
      assert Stretch(cs1);
      WalkIsShift(elems, home, start, n, cs1, i, i + 1);
      WalkIsShift(elems, home, start, n, cs, hole, i + 1);
    }
  }

  /** Only what lies ahead decides where the hole goes. */
  lemma {:induction false} Ahead(moves: (int, int) -> bool, cs: seq<int>, cs': seq<int>, deps: seq<int>, hole: nat,
                                 i: nat, owed: bool)
    requires hole < i < |cs| && |cs| == |cs'| == |deps|
    requires forall b {:trigger cs[b]} {:trigger cs'[b]} :: i <= b < |cs| ==> cs[b] == cs'[b]
    ensures LastHole(moves, cs, hole, i) == LastHole(moves, cs', hole, i)
    ensures Scan(moves, cs, deps, hole, i, owed) == Scan(moves, cs', deps, hole, i, owed)
    decreases |cs| - i
  {
    if i < |cs| - 1 {
      assert cs[i] == cs'[i];
      Ahead(moves, cs, cs', deps, i, i + 1, false);
      Ahead(moves, cs, cs', deps, hole, i + 1, owed || deps[i] >= i - hole);
    }
  }

  /** Outside the walked stretch nothing moves, and the last hole is the only new free slot. */
  lemma {:induction false} WalkEnds(moves: (int, int) -> bool, cs: seq<int>, hole: nat, i: nat)
    requires hole < i < |cs| && Stretch(cs)
    ensures var r, f := Walk(moves, cs, hole, i), LastHole(moves, cs, hole, i);
            && r[f] == FREE && r[|cs| - 1] == FREE
            && (forall a {:trigger r[a]} :: 0 <= a < |cs| - 1 && a != f ==> r[a] != FREE)
            && (forall a {:trigger r[a]} :: 0 <= a < |cs| && (a < hole || a > f || (hole < a < i && a != f)) ==>
                r[a] == cs[a])
    decreases |cs| - i
  {
    if i < |cs| - 1 {
      if moves(cs[i], hole) {
        var cs1 := cs[hole := cs[i]];
        assert Stretch(cs1);
        Ahead(moves, cs, cs1, cs, i, i + 1, false);
        WalkEnds(moves, cs1, i, i + 1);
      } else {
        WalkEnds(moves, cs, hole, i + 1);
      }
    }
  }

  /** An element moved from i to a without passing its home. */
  ghost predicate MovedWell(cs: seq<int>, deps: seq<int>, r: seq<int>, f: int, a: int, i: int) {
    0 <= a < i <= f < |cs| - 1 && |r| == |cs| == |deps| && r[a] == cs[i] && deps[i] >= i - a
  }

  /** An element that stayed; when it is behind the last hole, so is its home. */
  ghost predicate StayedWell(cs: seq<int>, deps: seq<int>, r: seq<int>, f: int, a: int) {
    0 <= a < |cs| - 1 && |r| == |cs| == |deps| && r[a] == cs[a] && (a > f ==> deps[a] < a - f)
  }

  ghost predicate Fit(cs: seq<int>, deps: seq<int>, r: seq<int>, f: int, a: int)
    requires 0 <= a < |r|
  {
    r[a] == FREE || StayedWell(cs, deps, r, f, a) || exists i :: MovedWell(cs, deps, r, f, a, i)
  }

  /** The opposite: moved past its home, or left behind the last hole it should have filled. */
  ghost predicate Misfit(cs: seq<int>, deps: seq<int>, r: seq<int>, f: int, a: int, i: int) {
    && 0 <= a <= i < |cs| - 1 && |r| == |cs| == |deps| && r[a] == cs[i]
    && (if a < i then i <= f && deps[i] < i - a else a > f && deps[a] >= a - f)
  }

  lemma FitLifts(cs: seq<int>, cs1: seq<int>, deps: seq<int>, i: int, r: seq<int>, f: int, a: int)
    requires 0 <= i <= a < |r| && |cs| == |cs1|
    requires forall b {:trigger cs[b]} {:trigger cs1[b]} :: i <= b < |cs| ==> cs[b] == cs1[b]
    requires Fit(cs1, deps, r, f, a)
    ensures Fit(cs, deps, r, f, a)
  {
    if r[a] != FREE && !StayedWell(cs1, deps, r, f, a) {
      var c :| MovedWell(cs1, deps, r, f, a, c);
      assert MovedWell(cs, deps, r, f, a, c);
    }
  }

  lemma FitAtEnd(cs: seq<int>, deps: seq<int>, hole: nat, a: int)
    requires hole < |cs| - 1 && hole <= a < |cs| && Stretch(cs) && |deps| == |cs|
    requires forall b {:trigger deps[b]} :: hole < b < |cs| - 1 ==> deps[b] < b - hole
    ensures Fit(cs, deps, cs[hole := FREE], hole, a)
  {
    assert hole < a < |cs| - 1 ==> StayedWell(cs, deps, cs[hole := FREE], hole, a);
  }

  /** When the element at i fills the hole, nothing between hole and i changes any more. */
  lemma FitBefore(moves: (int, int) -> bool, cs: seq<int>, deps: seq<int>, hole: nat, i: nat, a: int)
    requires hole < i < |cs| - 1 && hole <= a < i && Stretch(cs) && |deps| == |cs|
    requires moves(cs[i], hole) && deps[i] >= i - hole
    ensures Fit(cs, deps, Walk(moves, cs, hole, i), LastHole(moves, cs, hole, i), a)
  {
    var r, f := Walk(moves, cs, hole, i), LastHole(moves, cs, hole, i);
    var cs1 := cs[hole := cs[i]];
    Ahead(moves, cs, cs1, deps, i, i + 1, false);
    WalkEnds(moves, cs1, i, i + 1);
    if a == hole { assert MovedWell(cs, deps, r, f, a, i); } else { assert StayedWell(cs, deps, r, f, a); }
  }

  lemma {:induction false} ScanFits(moves: (int, int) -> bool, cs: seq<int>, deps: seq<int>, hole: nat, i: nat,
                                    owed: bool, a: int)
    requires hole < i < |cs| && hole <= a < |cs| && Stretch(cs) && |deps| == |cs|
    requires Scan(moves, cs, deps, hole, i, owed)
    requires !owed ==> forall b {:trigger deps[b]} :: hole < b < i ==> deps[b] < b - hole
    ensures Fit(cs, deps, Walk(moves, cs, hole, i), LastHole(moves, cs, hole, i), a)
    decreases |cs| - i
  {
    if i == |cs| - 1 {
      FitAtEnd(cs, deps, hole, a);
    } else if moves(cs[i], hole) {
      if a < i {
        FitBefore(moves, cs, deps, hole, i, a);
      } else {
        var cs1 := cs[hole := cs[i]];
        assert Stretch(cs1);
        Ahead(moves, cs, cs1, deps, i, i + 1, false);
        ScanFits(moves, cs1, deps, i, i + 1, false, a);
        FitLifts(cs, cs1, deps, i, Walk(moves, cs1, i, i + 1), LastHole(moves, cs1, i, i + 1), a);
      }
    } else {
      ScanFits(moves, cs, deps, hole, i + 1, owed || deps[i] >= i - hole, a);
    }
  }

  lemma {:induction false} ScanMisfits(moves: (int, int) -> bool, cs: seq<int>, deps: seq<int>, hole: nat, i: nat,
                                       owed: bool)
    returns (a: int, c: int)
    requires hole < i < |cs| && Stretch(cs) && |deps| == |cs|
    requires !Scan(moves, cs, deps, hole, i, owed)
    requires owed ==> exists b {:trigger deps[b]} :: hole < b < i && deps[b] >= b - hole
    ensures a >= hole && Misfit(cs, deps, Walk(moves, cs, hole, i), LastHole(moves, cs, hole, i), a, c)
    decreases |cs| - i
  {
    if i == |cs| - 1 {
      a :| hole < a < i && deps[a] >= a - hole;
      c := a;
    } else if moves(cs[i], hole) {
      var cs1 := cs[hole := cs[i]];
      assert Stretch(cs1);
      Ahead(moves, cs, cs1, deps, i, i + 1, false);
      if deps[i] >= i - hole {
        a, c := ScanMisfits(moves, cs1, deps, i, i + 1, false);
      } else {
        WalkEnds(moves, cs1, i, i + 1);
        a, c := hole, i;
      }
    } else {
      a, c := ScanMisfits(moves, cs, deps, hole, i + 1, owed || deps[i] >= i - hole);
    }
  }

  // ---- positions and probing ----

  /** Going b slots back from position a of a run. */
  lemma StepBack(start: int, a: int, b: int, n: int)
    requires 0 <= start < n && 0 <= a < n && 0 <= b < n
    ensures Minus(At(start, a, n), b, n) == At(start, if b <= a then a - b else a - b + n, n)
  {}

  /** How the distance from home changes when an element moves from i back to a. */
  lemma DepthMoved(start: int, h: int, a: int, i: int, n: int)
    requires 0 <= start < n && 0 <= h < n && 0 <= a <= i < n
    ensures var di := Off(h, At(start, i, n), n);
            Off(h, At(start, a, n), n) == if di >= i - a then di - (i - a) else di - (i - a) + n
  {}

  lemma MinusMoved(start: int, a: int, i: int, b: int, n: int)
    requires 0 <= start < n && 0 <= a <= i < n && 0 <= b && b + (i - a) < n
    ensures Minus(At(start, i, n), b + (i - a), n) == Minus(At(start, a, n), b, n)
  {}

  /** A removal in progress: cs is the run of table g from start, r what is written back. */
  ghost predicate Removal(g: Table, home: int -> int, start: int, cs: seq<int>, r: seq<int>, f: int) {
    && WellTabled(g) && Homes(home, |g.slots|) && 0 <= start < |g.slots|
    && 0 < |cs| <= |g.slots| && cs == Contents(g.slots, start, |cs|) && Stretch(cs)
    && |r| == |cs| && 0 <= f < |cs| - 1 && r[f] == FREE && r[|cs| - 1] == FREE
    && (forall a {:trigger r[a]} :: 0 <= a < |cs| - 1 && a != f ==> r[a] != FREE)
    && (forall a {:trigger r[a]} :: 0 <= a < |cs| ==> Valid(r[a], |g.elems|))
  }

  ghost function After(g: Table, start: int, r: seq<int>): Table
    requires 0 <= start < |g.slots| && |r| <= |g.slots|
  {
    Table(WriteBack(g.slots, start, r), g.elems)
  }

  lemma AfterAt(g: Table, start: int, r: seq<int>, c: int)
    requires 0 <= start < |g.slots| && |r| <= |g.slots| && 0 <= c < |g.slots|
    ensures 0 <= At(start, c, |g.slots|) < |g.slots|
    ensures After(g, start, r).slots[At(start, c, |g.slots|)] == if c < |r| then r[c]
            else g.slots[At(start, c, |g.slots|)]
  {
    Around(start, c, |g.slots|);
  }

  /** A path that was free of holes in g and does not touch the new hole is free of holes after. */
  lemma PathStays(g: Table, home: int -> int, start: int, cs: seq<int>, r: seq<int>, f: int, a: int, b: int)
    requires Removal(g, home, start, cs, r, f) && 0 <= a < |g.slots| && 1 <= b < |g.slots|
    requires forall e :: 1 <= e <= b ==> g.slots[Minus(At(start, a, |g.slots|), e, |g.slots|)] != FREE
    requires b <= a ==> a - b != f
    requires a < |cs| - 1 || b < a - (|cs| - 1)
    ensures After(g, start, r).slots[Minus(At(start, a, |g.slots|), b, |g.slots|)] != FREE
  {
    var n, last := |g.slots|, |cs| - 1;
    StepBack(start, a, b, n);
    var c := if b <= a then a - b else a - b + n;
    AfterAt(g, start, r, c);
    assert cs[last] == g.slots[At(start, last, n)];
    if b > a {
      // the path does not cross the free slot that closes the run
      StepBack(start, a, a + n - last, n);
    }
  }

  lemma StayedReaches(g: Table, home: int -> int, start: int, cs: seq<int>, r: seq<int>, f: int, a: int)
    requires Removal(g, home, start, cs, r, f) && Sound(g, home)
    requires 0 <= a < |cs| && 0 <= r[a] < |g.elems|
    requires StayedWell(cs, Depths(g.elems, home, start, |g.slots|, cs), r, f, a)
    ensures Full(After(g, start, r), At(start, a, |g.slots|))
    ensures Reach(After(g, start, r), home, At(start, a, |g.slots|))
  {
    var n, deps, p := |g.slots|, Depths(g.elems, home, start, |g.slots|, cs), At(start, a, |g.slots|);
    AfterAt(g, start, r, a);
    var h := home(g.elems[r[a]].key);
    assert deps[a] == Off(h, p, n) && cs[a] == g.slots[p];
    assert Reach(g, home, p);
    forall b | 1 <= b <= Off(h, p, n) ensures After(g, start, r).slots[Minus(p, b, n)] != FREE {
      PathStays(g, home, start, cs, r, f, a, b);
    }
  }

  /** The element at slot p of the new table, which is position a of the run. */
  lemma FitReaches(g: Table, home: int -> int, start: int, cs: seq<int>, r: seq<int>, f: int, a: int)
    requires Removal(g, home, start, cs, r, f) && Sound(g, home)
    requires 0 <= a < |cs| && 0 <= r[a] < |g.elems|
    requires Fit(cs, Depths(g.elems, home, start, |g.slots|, cs), r, f, a)
    ensures Full(After(g, start, r), At(start, a, |g.slots|))
    ensures Reach(After(g, start, r), home, At(start, a, |g.slots|))
  {
    var n, deps, p := |g.slots|, Depths(g.elems, home, start, |g.slots|, cs), At(start, a, |g.slots|);
    AfterAt(g, start, r, a);
    var h := home(g.elems[r[a]].key);
    if StayedWell(cs, deps, r, f, a) {
      StayedReaches(g, home, start, cs, r, f, a);
    } else {
      var i :| MovedWell(cs, deps, r, f, a, i);
      AfterAt(g, start, r, i);
      assert deps[i] == Off(h, At(start, i, n), n) && cs[i] == g.slots[At(start, i, n)];
      assert Reach(g, home, At(start, i, n));
      DepthMoved(start, h, a, i, n);
      forall e | 1 <= e <= Off(h, p, n) ensures g.slots[Minus(p, e, n)] != FREE {
        MinusMoved(start, a, i, e, n);
      }
      forall b | 1 <= b <= Off(h, p, n) ensures After(g, start, r).slots[Minus(p, b, n)] != FREE {
        PathStays(g, home, start, cs, r, f, a, b);
      }
    }
  }

  /** An element outside the run is reached as before. */
  lemma OutsideReaches(g: Table, home: int -> int, start: int, cs: seq<int>, r: seq<int>, f: int, a: int)
    requires Removal(g, home, start, cs, r, f) && Sound(g, home)
    requires |cs| <= a < |g.slots| && Full(After(g, start, r), At(start, a, |g.slots|))
    ensures Reach(After(g, start, r), home, At(start, a, |g.slots|))
  {
    var n, p, last := |g.slots|, At(start, a, |g.slots|), |cs| - 1;
    AfterAt(g, start, r, a);
    var h := home(g.elems[g.slots[p]].key);
    assert Reach(g, home, p);
    StepBack(start, a, a - last, n);
    assert cs[last] == g.slots[At(start, last, n)];
    forall b | 1 <= b <= Off(h, p, n) ensures After(g, start, r).slots[Minus(p, b, n)] != FREE {
      PathStays(g, home, start, cs, r, f, a, b);
    }
  }

  /** A misfit cannot be reached any more. */
  lemma MisfitLost(g: Table, home: int -> int, start: int, cs: seq<int>, r: seq<int>, f: int, a: int, i: int)
    requires Removal(g, home, start, cs, r, f)
    requires Misfit(cs, Depths(g.elems, home, start, |g.slots|, cs), r, f, a, i)
    ensures Full(After(g, start, r), At(start, a, |g.slots|))
    ensures !Reach(After(g, start, r), home, At(start, a, |g.slots|))
  {
    var n, deps, p, last := |g.slots|, Depths(g.elems, home, start, |g.slots|, cs), At(start, a, |g.slots|), |cs| - 1;
    AfterAt(g, start, r, a);
    AfterAt(g, start, r, f);
    AfterAt(g, start, r, last);
    assert cs[i] == g.slots[At(start, i, n)] && Valid(r[a], |g.elems|);
    var h := home(g.elems[r[a]].key);
    assert deps[i] == Off(h, At(start, i, n), n);
    DepthMoved(start, h, a, i, n);
    if a < i {
      StepBack(start, a, a + n - last, n);
    } else {
      StepBack(start, a, a - f, n);
    }
  }

  // ---- removal ----

  /** The run a removal sees, from the home of the key to the next free slot. */
  lemma RemovalRun(g: Table, home: int -> int, e: int)
    requires Sound(g, home) && 0 <= e < |g.elems| && e in g.slots
    ensures var k, n, cs := g.elems[e].key, |g.slots|, Seen(g, home, Remove(e));
            var d := Probe(g.elems, k, cs);
            && Stretch(cs) && d < |cs| - 1 && cs[d] == e && Stop(g.elems, Remove(e), k, cs)
            && cs == Contents(g.slots, home(k), |cs|) && |cs| <= n
            && (forall b {:trigger cs[b]} :: 0 <= b < |cs| ==> Valid(cs[b], |g.elems|))
  {
    var k, cs := g.elems[e].key, Seen(g, home, Remove(e));
    var p :| 0 <= p < |g.slots| && g.slots[p] == e;
    ViewAt(g, p);
    SeenEnds(g, home, Remove(e));
    SeenRun(g, home, Remove(e), k);
  }

  /** What an operation sees, slot by slot. */
  lemma SeenRun(g: Table, home: int -> int, op: Op, k: int)
    requires WellTabled(g) && Homes(home, |g.slots|) && k == KeyOf(g.elems, op)
    ensures var cs := Seen(g, home, op);
            && |cs| <= |g.slots| && cs == Contents(g.slots, home(k), |cs|)
            && (forall b {:trigger cs[b]} :: 0 <= b < |cs| ==> Valid(cs[b], |g.elems|))
            && (forall b {:trigger cs[b]} :: 0 <= b < |cs| - 1 ==> cs[b] != FREE)
  {
    var n, cs := |g.slots|, Seen(g, home, op);
    forall b | 0 <= b < |cs| ensures Valid(cs[b], |g.elems|) { Around(home(k), b, n); }
    forall b | 0 <= b < |cs| - 1 ensures cs[b] != FREE { SeenFull(g, op, k, home(k), b); }
  }

  /** Positions without repetition in the run and outside it are positions without repetition. */
  lemma RunApart(g: Table, start: int, m: nat)
    requires WellTabled(g) && 0 <= start < |g.slots| && m <= |g.slots|
    ensures Apart(Contents(g.slots, start, m), -1)
  {
    var cs, n := Contents(g.slots, start, m), |g.slots|;
    forall a, b | 0 <= a < b < m && cs[a] == cs[b] ensures cs[a] == FREE {
      Around(start, a, n);
      Around(start, b, n);
      if cs[a] != FREE { SlotsApart(g.slots, At(start, a, n), At(start, b, n)); }
    }
  }

  /** Exactly the elements of the run other than the one in the hole are written back. */
  lemma ShiftKeeps(g: Table, home: int -> int, start: int, cs: seq<int>, d: nat, x: int)
    requires WellTabled(g) && 0 <= start < |g.slots| && |cs| <= |g.slots| && cs == Contents(g.slots, start, |cs|)
    requires d < |cs| && x != FREE
    ensures var r := Shift(g.elems, home, start, |g.slots|, cs, d, d + 1);
            && (x in r <==> x in cs && x != cs[d])
            && Apart(r, -1)
            && (forall a {:trigger r[a]} :: 0 <= a < |cs| ==> Valid(r[a], |g.elems|))
  {
    RunApart(g, start, |cs|);
    forall b | 0 <= b < |cs| ensures Valid(cs[b], |g.elems|) { Around(start, b, |g.slots|); }
    ShiftContents(g.elems, home, start, |g.slots|, cs, d, d + 1, x);
  }

  /** A removal of the element at position d of the run cs, whatever the walk does. */
  ghost predicate Dropping(g: Table, start: int, cs: seq<int>, d: nat) {
    && WellTabled(g) && 0 <= start < |g.slots| && |cs| <= |g.slots| && cs == Contents(g.slots, start, |cs|)
    && d < |cs| && cs[d] != FREE
  }

  ghost function Dropped(g: Table, home: int -> int, start: int, cs: seq<int>, d: nat): Table
    requires Dropping(g, start, cs, d)
  {
    After(g, start, Shift(g.elems, home, start, |g.slots|, cs, d, d + 1))
  }

  /** Where the element now at slot p was before. */
  lemma Origin(g: Table, home: int -> int, start: int, cs: seq<int>, d: nat, p: int) returns (o: int)
    requires Dropping(g, start, cs, d) && 0 <= p < |g.slots| && Dropped(g, home, start, cs, d).slots[p] != FREE
    ensures 0 <= o < |g.slots| && g.slots[o] == Dropped(g, home, start, cs, d).slots[p] != cs[d]
    ensures Off(start, o, |g.slots|) < |cs| <==> Off(start, p, |g.slots|) < |cs|
    ensures Off(start, p, |g.slots|) >= |cs| ==> o == p
  {
    var n, r := |g.slots|, Shift(g.elems, home, start, |g.slots|, cs, d, d + 1);
    Back(start, p, n);
    Around(start, d, n);
    var a := Off(start, p, n);
    if a < |cs| {
      ShiftKeeps(g, home, start, cs, d, r[a]);
      assert r[a] in r;
      var c :| 0 <= c < |cs| && cs[c] == r[a];
      Around(start, c, n);
      o := At(start, c, n);
    } else {
      o := p;
      SlotsApart(g.slots, At(start, d, n), p);
    }
  }

  /** Every element but the dropped one is still in some slot. */
  lemma Remains(g: Table, home: int -> int, start: int, cs: seq<int>, d: nat, p: int) returns (q: int)
    requires Dropping(g, start, cs, d) && 0 <= p < |g.slots| && g.slots[p] != FREE && g.slots[p] != cs[d]
    ensures 0 <= q < |g.slots| && Dropped(g, home, start, cs, d).slots[q] == g.slots[p]
  {
    var n, r := |g.slots|, Shift(g.elems, home, start, |g.slots|, cs, d, d + 1);
    Back(start, p, n);
    var a := Off(start, p, n);
    if a < |cs| {
      ShiftKeeps(g, home, start, cs, d, g.slots[p]);
      assert cs[a] == g.slots[p];
      var b :| 0 <= b < |cs| && r[b] == g.slots[p];
      AfterAt(g, start, r, b);
      q := At(start, b, n);
    } else {
      AfterAt(g, start, r, a);
      q := p;
    }
  }

  lemma DroppedApart(g: Table, home: int -> int, start: int, cs: seq<int>, d: nat, p: int, q: int)
    requires Dropping(g, start, cs, d) && 0 <= p < q < |g.slots|
    requires var s := Dropped(g, home, start, cs, d).slots; s[p] == s[q]
    ensures Dropped(g, home, start, cs, d).slots[p] == FREE
  {
    var n, r := |g.slots|, Shift(g.elems, home, start, |g.slots|, cs, d, d + 1);
    var s := Dropped(g, home, start, cs, d).slots;
    ShiftKeeps(g, home, start, cs, d, 0);
    Back(start, p, n);
    Back(start, q, n);
    var a, b := Off(start, p, n), Off(start, q, n);
    if s[p] != FREE {
      var x := Origin(g, home, start, cs, d, p);
      var y := Origin(g, home, start, cs, d, q);
    }
  }

  lemma DroppedTabled(g: Table, home: int -> int, start: int, cs: seq<int>, d: nat)
    requires Dropping(g, start, cs, d)
    ensures WellTabled(Dropped(g, home, start, cs, d))
  {
    var n, r := |g.slots|, Shift(g.elems, home, start, |g.slots|, cs, d, d + 1);
    var g' := Dropped(g, home, start, cs, d);
    ShiftKeeps(g, home, start, cs, d, 0);
    forall p | 0 <= p < n ensures Valid(g'.slots[p], |g.elems|) { Back(start, p, n); }
    forall p, q | 0 <= p < q < n && g'.slots[p] == g'.slots[q] ensures g'.slots[p] == FREE {
      DroppedApart(g, home, start, cs, d, p, q);
    }
  }

  lemma DroppedUnique(g: Table, home: int -> int, start: int, cs: seq<int>, d: nat)
    requires Dropping(g, start, cs, d) && UniqueKeys(g)
    ensures UniqueKeys(Dropped(g, home, start, cs, d))
  {
    var g' := Dropped(g, home, start, cs, d);
    DroppedTabled(g, home, start, cs, d);
    forall p, q | Full(g', p) && Full(g', q) && g'.elems[g'.slots[p]].key == g'.elems[g'.slots[q]].key ensures p == q {
      var o := Origin(g, home, start, cs, d, p);
      var u := Origin(g, home, start, cs, d, q);
      ViewAt(g, o);
      ViewAt(g, u);
      if p != q { SlotsApart(g'.slots, p, q); }
    }
  }

  /** Keys and values of all other elements survive, whether or not they can still be found. */
  lemma DroppedView(g: Table, home: int -> int, start: int, cs: seq<int>, d: nat)
    requires Dropping(g, start, cs, d) && UniqueKeys(g)
    ensures 0 <= cs[d] < |g.elems| && View(Dropped(g, home, start, cs, d)) == View(g) - {g.elems[cs[d]].key}
  {
    var n, g' := |g.slots|, Dropped(g, home, start, cs, d);
    Around(start, d, n);
    ViewAt(g, At(start, d, n));
    var m := View(g) - {g.elems[cs[d]].key};
    forall p | Full(g', p)
      ensures g'.elems[g'.slots[p]].key in m && m[g'.elems[g'.slots[p]].key] == g'.elems[g'.slots[p]].val
    {
      DroppedAt(g, home, start, cs, d, p);
    }
    forall k | k in m ensures k in Keys(g') { KeyRemains(g, home, start, cs, d, k); }
    ViewIs(g', m);
  }

  lemma DroppedAt(g: Table, home: int -> int, start: int, cs: seq<int>, d: nat, p: int)
    requires Dropping(g, start, cs, d) && UniqueKeys(g) && 0 <= cs[d] < |g.elems|
    requires Full(Dropped(g, home, start, cs, d), p)
    ensures var e := g.elems[Dropped(g, home, start, cs, d).slots[p]];
            e.key in View(g) && View(g)[e.key] == e.val && e.key != g.elems[cs[d]].key
  {
    var o := Origin(g, home, start, cs, d, p);
    Around(start, d, |g.slots|);
    ViewAt(g, o);
    ViewAt(g, At(start, d, |g.slots|));
  }

  lemma KeyRemains(g: Table, home: int -> int, start: int, cs: seq<int>, d: nat, k: int)
    requires Dropping(g, start, cs, d) && 0 <= cs[d] < |g.elems| && k in Keys(g) && k != g.elems[cs[d]].key
    ensures k in Keys(Dropped(g, home, start, cs, d))
  {
    var q := Remains(g, home, start, cs, d, SlotOf(g, k));
    assert Full(Dropped(g, home, start, cs, d), q);
  }

  lemma DroppedMembers(g: Table, home: int -> int, start: int, cs: seq<int>, d: nat, x: int)
    requires Dropping(g, start, cs, d) && x != FREE
    ensures x in Dropped(g, home, start, cs, d).slots <==> x in g.slots && x != cs[d]
  {
    var t := Dropped(g, home, start, cs, d);
    if x in t.slots {
      var p :| 0 <= p < |t.slots| && t.slots[p] == x;
      var o := Origin(g, home, start, cs, d, p);
    }
    if x in g.slots && x != cs[d] {
      var p :| 0 <= p < |g.slots| && g.slots[p] == x;
      var q := Remains(g, home, start, cs, d, p);
    }
  }

  lemma FinishRemove(elems: seq<Elem>, home: int -> int, e: int, k: int, start: int, n: int, cs: seq<int>)
    requires Probe(elems, k, cs) < |cs| && cs[Probe(elems, k, cs)] != FREE
    ensures var d := Probe(elems, k, cs);
            var o := Finish(elems, home, Remove(e), k, start, n, cs);
            o.cs == Shift(elems, home, start, n, cs, d, d + 1) && o.x == NONE && o.res == Ok
  {}

  /** The call, in terms of its run. */
  lemma RemoveApplies(g: Table, home: int -> int, e: int) returns (start: int, cs: seq<int>, d: nat)
    requires Sound(g, home) && 0 <= e < |g.elems| && e in g.slots
    ensures start == home(g.elems[e].key) && cs == Seen(g, home, Remove(e)) && d == Probe(g.elems, g.elems[e].key, cs)
    ensures Dropping(g, start, cs, d) && cs[d] == e && Stretch(cs) && d + 1 < |cs|
    ensures Apply(g, home, Remove(e)) == Applied(Dropped(g, home, start, cs, d), Ok)
  {
    var k := g.elems[e].key;
    start, cs := home(k), Seen(g, home, Remove(e));
    d := Probe(g.elems, k, cs);
    RemovalRun(g, home, e);
    RemoveWrites(g, home, e, cs, d);
  }

  lemma RemoveWrites(g: Table, home: int -> int, e: int, cs: seq<int>, d: nat)
    requires Homes(home, |g.slots|) && 0 <= e < |g.elems| && cs == Seen(g, home, Remove(e))
    requires d == Probe(g.elems, g.elems[e].key, cs) < |cs| && cs[d] == e != FREE
    requires Stop(g.elems, Remove(e), g.elems[e].key, cs)
    ensures var start := home(g.elems[e].key);
            Apply(g, home, Remove(e)) ==
              Applied(After(g, start, Shift(g.elems, home, start, |g.slots|, cs, d, d + 1)), Ok)
  {
    var k := g.elems[e].key;
    ApplyIs(g, home, Remove(e), k, cs);
    FinishRemove(g.elems, home, e, k, home(k), |g.slots|, cs);
  }

  /** Everything a removal computes, by name. */
  ghost predicate Removes(g: Table, home: int -> int, start: int, cs: seq<int>, d: nat,
                          moves: (int, int) -> bool, deps: seq<int>, r: seq<int>, f: int)
  {
    && Sound(g, home) && 0 <= start < |g.slots| && Stretch(cs) && d + 1 < |cs|
    && moves == Test(g.elems, home, start, |g.slots|) && deps == Depths(g.elems, home, start, |g.slots|, cs)
    && r == Walk(moves, cs, d, d + 1) && f == LastHole(moves, cs, d, d + 1)
    && Removal(g, home, start, cs, r, f)
    && (forall a {:trigger r[a]} :: 0 <= a < d ==> r[a] == cs[a])
  }

  lemma RemovalShape(g: Table, home: int -> int, e: int)
    returns (start: int, cs: seq<int>, d: nat, moves: (int, int) -> bool, deps: seq<int>, r: seq<int>, f: int)
    requires Sound(g, home) && 0 <= e < |g.elems| && e in g.slots
    ensures Removes(g, home, start, cs, d, moves, deps, r, f)
    ensures Apply(g, home, Remove(e)).t == After(g, start, r)
    ensures ShiftIsSafe(g, home, e) == Scan(moves, cs, deps, d, d + 1, false)
  {
    start, cs, d := RemoveApplies(g, home, e);
    moves, deps, r, f := WalkShape(g, home, start, cs, d);
  }

  /** What the walk leaves of a run. */
  lemma WalkShape(g: Table, home: int -> int, start: int, cs: seq<int>, d: nat)
    returns (moves: (int, int) -> bool, deps: seq<int>, r: seq<int>, f: int)
    requires Sound(g, home) && Dropping(g, start, cs, d) && Stretch(cs) && d + 1 < |cs|
    ensures Removes(g, home, start, cs, d, moves, deps, r, f)
    ensures r == Shift(g.elems, home, start, |g.slots|, cs, d, d + 1)
  {
    var n := |g.slots|;
    moves, deps := Test(g.elems, home, start, n), Depths(g.elems, home, start, n, cs);
    r, f := Walk(moves, cs, d, d + 1), LastHole(moves, cs, d, d + 1);
    ShiftKeeps(g, home, start, cs, d, 0);
    forall b | 0 <= b < |cs| ensures Valid(cs[b], |g.elems|) { Around(start, b, n); }
    WalkIsShift(g.elems, home, start, n, cs, d, d + 1);
    WalkEnds(moves, cs, d, d + 1);
  }

  lemma SafeReaches(g: Table, home: int -> int, start: int, cs: seq<int>, d: nat,
                    moves: (int, int) -> bool, deps: seq<int>, r: seq<int>, f: int, p: int)
    requires Removes(g, home, start, cs, d, moves, deps, r, f)
    requires Scan(moves, cs, deps, d, d + 1, false) && Full(After(g, start, r), p)
    ensures Reach(After(g, start, r), home, p)
  {
    Back(start, p, |g.slots|);
    var a := Off(start, p, |g.slots|);
    AfterAt(g, start, r, a);
    if a >= |cs| {
      OutsideReaches(g, home, start, cs, r, f, a);
    } else {
      SafeFits(g, home, start, cs, d, moves, deps, r, f, a);
      FitReaches(g, home, start, cs, r, f, a);
    }
  }

  lemma SafeFits(g: Table, home: int -> int, start: int, cs: seq<int>, d: nat,
                 moves: (int, int) -> bool, deps: seq<int>, r: seq<int>, f: int, a: int)
    requires Removes(g, home, start, cs, d, moves, deps, r, f) && Scan(moves, cs, deps, d, d + 1, false)
    requires 0 <= a < |cs| && 0 <= r[a] < |g.elems|
    ensures Fit(cs, deps, r, f, a)
  {
    if a < d {
      assert StayedWell(cs, deps, r, f, a);
    } else {
      ScanFits(moves, cs, deps, d, d + 1, false, a);
    }
  }

  lemma UnsafeLoses(g: Table, home: int -> int, start: int, cs: seq<int>, d: nat,
                    moves: (int, int) -> bool, deps: seq<int>, r: seq<int>, f: int) returns (p: int)
    requires Removes(g, home, start, cs, d, moves, deps, r, f)
    requires !Scan(moves, cs, deps, d, d + 1, false)
    ensures Full(After(g, start, r), p) && !Reach(After(g, start, r), home, p)
  {
    var a, i := ScanMisfits(moves, cs, deps, d, d + 1, false);
    MisfitLost(g, home, start, cs, r, f, a, i);
    p := At(start, a, |g.slots|);
  }

  /** All other keys can still be found exactly when the shift is safe. */
  lemma RemoveSafe(g: Table, home: int -> int, e: int)
    requires Sound(g, home) && 0 <= e < |g.elems| && e in g.slots
    ensures var t := Apply(g, home, Remove(e)).t;
            (forall p {:trigger Reach(t, home, p)} :: Full(t, p) ==> Reach(t, home, p)) <==> ShiftIsSafe(g, home, e)
  {
    var start, cs, d, moves, deps, r, f := RemovalShape(g, home, e);
    if ShiftIsSafe(g, home, e) {
      forall p | Full(After(g, start, r), p) ensures Reach(After(g, start, r), home, p) {
        SafeReaches(g, home, start, cs, d, moves, deps, r, f, p);
      }
    } else {
      var p := UnsafeLoses(g, home, start, cs, d, moves, deps, r, f);
    }
  }

  /** removeFromHashPos finds its element and drops exactly its key; the remaining keys can all
      still be found exactly when the shift was safe. */
  lemma RemoveMeaning(g: Table, home: int -> int, e: int)
    requires Sound(g, home) && 0 <= e < |g.elems| && e in g.slots
    ensures var r := Apply(g, home, Remove(e));
            && r.res == Ok && r.t.elems == g.elems && WellTabled(r.t)
            && View(r.t) == View(g) - {g.elems[e].key}
            && e !in r.t.slots
            && (forall x :: x != e && x != FREE ==> (x in r.t.slots <==> x in g.slots))
            && (Sound(r.t, home) <==> ShiftIsSafe(g, home, e))
            && (Answers(r.t, home) <==> ShiftIsSafe(g, home, e))
  {
    var start, cs, d := RemoveApplies(g, home, e);
    var t := Dropped(g, home, start, cs, d);
    DroppedTabled(g, home, start, cs, d);
    DroppedUnique(g, home, start, cs, d);
    DroppedView(g, home, start, cs, d);
    forall x | x != FREE ensures x in t.slots <==> x in g.slots && x != e {
      DroppedMembers(g, home, start, cs, d, x);
    }
    RemoveSafe(g, home, e);
    AnswersIffSound(t, home);
  }

  // ---- when the shift is safe ----

  /** No occupied run crosses from the last slot to the first. */
  predicate NoCrossing(g: Table)
    requires |g.slots| > 0
  {
    g.slots[|g.slots| - 1] == FREE || g.slots[0] == FREE
  }

  lemma {:induction false} ScanAgrees(moves: (int, int) -> bool, cs: seq<int>, deps: seq<int>, hole: nat, i: nat)
    requires hole < i && |deps| == |cs|
    requires forall b, h {:trigger moves(cs[b], h)} :: i <= b < |cs| - 1 && hole <= h < b ==>
               (moves(cs[b], h) <==> deps[b] >= b - h)
    ensures Scan(moves, cs, deps, hole, i, false)
    decreases |cs| - i
  {
    if i < |cs| - 1 {
      ScanAgrees(moves, cs, deps, if moves(cs[i], hole) then i else hole, i + 1);
    }
  }

  /** Without crossing, every element lies at or after its home. */
  lemma HomeBefore(g: Table, home: int -> int, p: int)
    requires Sound(g, home) && NoCrossing(g) && Full(g, p)
    ensures home(g.elems[g.slots[p]].key) <= p
  {
    assert Reach(g, home, p);
    var n := |g.slots|;
    assert Minus(p, p, n) == 0 && Minus(p, p + 1, n) == n - 1;
  }

  /** Without crossing, the run itself does not wrap before its closing free slot. */
  lemma RunStraight(g: Table, start: int, cs: seq<int>, i: int)
    requires 0 <= start < |g.slots| && NoCrossing(g) && Stretch(cs) && |cs| <= |g.slots|
    requires cs == Contents(g.slots, start, |cs|)
    requires 0 <= i < |cs| - 1
    ensures start + i < |g.slots|
  {
    var n := |g.slots|;
    assert n - 1 - start < |cs| ==> cs[n - 1 - start] == g.slots[n - 1];
    assert n - start < |cs| ==> cs[n - start] == g.slots[0];
  }

  lemma TestAgrees(g: Table, home: int -> int, start: int, cs: seq<int>, b: int, h: int)
    requires Sound(g, home) && 0 <= start < |g.slots| && NoCrossing(g)
    requires Stretch(cs) && |cs| <= |g.slots| && cs == Contents(g.slots, start, |cs|)
    requires 0 <= h < b < |cs| - 1
    ensures Test(g.elems, home, start, |g.slots|)(cs[b], h) <==> Depths(g.elems, home, start, |g.slots|, cs)[b] >= b - h
  {
    RunStraight(g, start, cs, b);
    assert cs[b] == g.slots[start + b];
    HomeBefore(g, home, start + b);
  }

  lemma StraightScan(g: Table, home: int -> int, start: int, cs: seq<int>, d: nat)
    requires Sound(g, home) && 0 <= start < |g.slots| && NoCrossing(g)
    requires Stretch(cs) && |cs| <= |g.slots| && cs == Contents(g.slots, start, |cs|)
    ensures Scan(Test(g.elems, home, start, |g.slots|), cs, Depths(g.elems, home, start, |g.slots|, cs), d, d + 1,
                 false)
  {
    var moves, deps := Test(g.elems, home, start, |g.slots|), Depths(g.elems, home, start, |g.slots|, cs);
    forall b, h | d + 1 <= b < |cs| - 1 && d <= h < b ensures moves(cs[b], h) <==> deps[b] >= b - h {
      TestAgrees(g, home, start, cs, b, h);
    }
    ScanAgrees(moves, cs, deps, d, d + 1);
  }

  /** A table none of whose runs crosses the last slot can always be shifted safely. */
  lemma NoCrossingIsSafe(g: Table, home: int -> int, e: int)
    requires Sound(g, home) && 0 <= e < |g.elems| && e in g.slots && NoCrossing(g)
    ensures ShiftIsSafe(g, home, e)
  {
    var start, cs, d, moves, deps, r, f := RemovalShape(g, home, e);
    StraightScan(g, home, start, cs, d);
  }

  // ---- an unsafe shift ----

  function DemoHome(k: int): int { if k == 8 then 0 else 3 }

  const DEMO := Table([1, FREE, FREE, 0], [Elem(7, 70), Elem(8, 80)])

  lemma DemoRun()
    ensures KeyOf(DEMO.elems, Remove(0)) == 7
    ensures Contents(DEMO.slots, 3, Need(DEMO, Remove(0), 7, 3, 0)) == [0, 1, FREE]
    ensures Probe(DEMO.elems, 7, [0, 1, FREE]) == 0
  {
    assert Contents(DEMO.slots, 3, 0) == [];
    assert Contents(DEMO.slots, 3, 1) == [0];
    assert Contents(DEMO.slots, 3, 2) == [0, 1];
    assert Contents(DEMO.slots, 3, 3) == [0, 1, FREE];
    assert Need(DEMO, Remove(0), 7, 3, 3) == 3;
    assert Need(DEMO, Remove(0), 7, 3, 2) == 3;
    assert Need(DEMO, Remove(0), 7, 3, 1) == 3;
  }

  lemma DemoShift()
    ensures Shift(DEMO.elems, DemoHome, 3, 4, [0, 1, FREE], 0, 1) == [1, FREE, FREE]
    ensures WriteBack(DEMO.slots, 3, [1, FREE, FREE]) == [FREE, FREE, FREE, 1]
  {
    assert [0, 1, FREE][0 := 1] == [1, 1, FREE];
    assert Shift(DEMO.elems, DemoHome, 3, 4, [1, 1, FREE], 1, 2) == [1, FREE, FREE];
  }

  lemma DemoSound()
    ensures Sound(DEMO, DemoHome) && 0 in DEMO.slots
  {
    assert DEMO.slots[0] == 1 && DEMO.slots[1] == FREE && DEMO.slots[2] == FREE && DEMO.slots[3] == 0;
  }

  lemma DemoApply()
    ensures Homes(DemoHome, 4) && Apply(DEMO, DemoHome, Remove(0)).t == Table([FREE, FREE, FREE, 1], DEMO.elems)
  {
    DemoRun();
    DemoShift();
    assert Stop(DEMO.elems, Remove(0), 7, [0, 1, FREE]);
    FinishRemove(DEMO.elems, DemoHome, 0, 7, 3, 4, [0, 1, FREE]);
  }

  lemma DemoLost()
    ensures var t := Table([FREE, FREE, FREE, 1], DEMO.elems);
            Full(t, 3) && !Reach(t, DemoHome, 3) && 8 in Keys(t) && Apply(t, DemoHome, Get(8)).res == NotFound
  {
    var t := Table([FREE, FREE, FREE, 1], DEMO.elems);
    assert Full(t, 3) && Minus(3, 3, 4) == 0;
    assert t.slots[0] == FREE && t.slots[1] == FREE && t.slots[2] == FREE;
    assert UniqueKeys(t) && WellTabled(t);
    Lost(t, DemoHome, 3);
  }

  /** The comparison does go wrong: with key 7 at home in slot 3 and key 8 at home in slot 0 of
      four slots, deleting 7 moves 8 into slot 3, where no lookup finds it. */
  lemma CrossingLosesKeys()
    ensures Sound(DEMO, DemoHome) && !ShiftIsSafe(DEMO, DemoHome, 0)
    ensures var t := Apply(DEMO, DemoHome, Remove(0)).t;
            8 in Keys(t) && Apply(t, DemoHome, Get(8)).res == NotFound
  {
    DemoSound();
    DemoApply();
    DemoLost();
    RemoveSafe(DEMO, DemoHome, 0);
  }
}
