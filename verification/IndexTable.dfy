/** Facts about index operations that do not depend on where keys are stored. */
module IndexTable {
  import opened Index
  import opened Pigeonhole

  /** How far p is from start in ring order. */
  function Off(start: int, p: int, n: int): int {
    if p >= start then p - start else p - start + n
  }

  ghost predicate Valid(x: int, n: int) { x == FREE || 0 <= x < n }

  /** No element is in two slots. */
  ghost predicate NoDup(slots: seq<int>) {
    forall p, q {:trigger slots[p], slots[q]} ::
      0 <= p < q < |slots| && slots[p] == slots[q] ==> slots[p] == FREE
  }

  ghost predicate WellTabled(g: Table) {
    && |g.elems| < |g.slots| && |g.elems| <= LOCK
    && NoDup(g.slots)
    && forall p {:trigger g.slots[p]} :: 0 <= p < |g.slots| ==> Valid(g.slots[p], |g.elems|)
  }

  // ---- ring arithmetic ----

  lemma Around(start: int, i: int, n: int)
    requires 0 <= start < n && 0 <= i < n
    ensures 0 <= At(start, i, n) < n && Off(start, At(start, i, n), n) == i
  {}

  lemma Back(start: int, p: int, n: int)
    requires 0 <= start < n && 0 <= p < n
    ensures 0 <= Off(start, p, n) < n && At(start, Off(start, p, n), n) == p
  {}

  // ---- operations read only the elements of the slots they hold ----

  ghost predicate Agree(a: seq<Elem>, b: seq<Elem>, cs: seq<int>) {
    && |a| == |b|
    && forall i {:trigger cs[i]} :: 0 <= i < |cs| && 0 <= cs[i] < |a| ==> a[cs[i]] == b[cs[i]]
  }

  /** Only the keys matter for where an operation stops. */
  ghost predicate SameKeys(a: seq<Elem>, b: seq<Elem>, cs: seq<int>) {
    && |a| == |b|
    && forall i {:trigger cs[i]} :: 0 <= i < |cs| && 0 <= cs[i] < |a| ==> a[cs[i]].key == b[cs[i]].key
  }

  lemma {:induction false} ProbeSame(a: seq<Elem>, b: seq<Elem>, k: int, cs: seq<int>)
    requires SameKeys(a, b, cs)
    ensures Probe(a, k, cs) == Probe(b, k, cs)
  {
    if cs != [] {
      forall i | 0 <= i < |cs| - 1 ensures cs[1..][i] == cs[i + 1] {}
      ProbeSame(a, b, k, cs[1..]);
    }
  }

  lemma {:induction false} ShiftSame(a: seq<Elem>, b: seq<Elem>, home: int -> int, start: int, n: int, cs: seq<int>,
                                     hole: nat, i: nat)
    requires hole < i && hole < |cs| && SameKeys(a, b, cs)
    ensures Shift(a, home, start, n, cs, hole, i) == Shift(b, home, start, n, cs, hole, i)
    decreases |cs| - i
  {
    if i < |cs| && 0 <= cs[i] < |a| {
      if home(a[cs[i]].key) <= At(start, hole, n) {
        ShiftSame(a, b, home, start, n, cs[hole := cs[i]], i, i + 1);
      } else {
        ShiftSame(a, b, home, start, n, cs, hole, i + 1);
      }
    }
  }

  lemma FinishSame(a: seq<Elem>, b: seq<Elem>, home: int -> int, op: Op, k: int, start: int, n: int, cs: seq<int>)
    requires Agree(a, b, cs) && Stop(a, op, k, cs)
    ensures Stop(b, op, k, cs) && Finish(a, home, op, k, start, n, cs) == Finish(b, home, op, k, start, n, cs)
  {
    assert SameKeys(a, b, cs);
    ProbeSame(a, b, k, cs);
    var d := Probe(a, k, cs);
    if cs[d] != FREE { ShiftSame(a, b, home, start, n, cs, d, d + 1); }
  }

  // ---- removal permutes the contents ----

  /** Apart from position hole, no element occurs twice. */
  ghost predicate Apart(cs: seq<int>, hole: int) {
    forall a, b {:trigger cs[a], cs[b]} ::
      0 <= a < b < |cs| && a != hole && b != hole && cs[a] == cs[b] ==> cs[a] == FREE
  }

  /** The walk drops exactly the element in the hole. */
  lemma {:induction false} ShiftContents(elems: seq<Elem>, home: int -> int, start: int, n: int, cs: seq<int>,
                                         hole: nat, i: nat, x: int)
    requires hole < i && hole < |cs| && Apart(cs, hole)
    requires forall a {:trigger cs[a]} :: 0 <= a < |cs| ==> Valid(cs[a], |elems|)
    ensures var r := Shift(elems, home, start, n, cs, hole, i);
            && Apart(r, -1)
            && (x != FREE ==> (x in r <==> exists a :: 0 <= a < |cs| && a != hole && cs[a] == x))
            && (forall a {:trigger r[a]} :: 0 <= a < |cs| ==> Valid(r[a], |elems|))
    decreases |cs| - i
  {
    var r := Shift(elems, home, start, n, cs, hole, i);
    if i >= |cs| || !(0 <= cs[i] < |elems|) {
      assert r == cs[hole := FREE];
      if x != FREE && x in r {
        var a :| 0 <= a < |r| && r[a] == x;
        assert a != hole && cs[a] == x;
      }
      if x != FREE && exists a :: 0 <= a < |cs| && a != hole && cs[a] == x {
        var a :| 0 <= a < |cs| && a != hole && cs[a] == x;
        assert r[a] == x;
      }
    } else if home(elems[cs[i]].key) <= At(start, hole, n) {
      var cs1 := cs[hole := cs[i]];
      ShiftContents(elems, home, start, n, cs1, i, i + 1, x);
      if exists a :: 0 <= a < |cs| && a != hole && cs[a] == x {
        var a :| 0 <= a < |cs| && a != hole && cs[a] == x;
        assert cs1[if a == i then hole else a] == x;
      }
      if exists a :: 0 <= a < |cs1| && a != i && cs1[a] == x {
        var a :| 0 <= a < |cs1| && a != i && cs1[a] == x;
        assert cs[if a == hole then i else a] == x;
      }
    } else {
      ShiftContents(elems, home, start, n, cs, hole, i + 1, x);
    }
  }

  // ---- insertion adds one element ----

  lemma PutMembers(s: seq<int>, q: int, e: int, x: int)
    requires 0 <= q < |s| && s[q] == FREE && x != FREE
    ensures x in s[q := e] <==> x == e || x in s
  {
    var r := s[q := e];
    assert r[q] == e;
    if x in s {
      var p :| 0 <= p < |s| && s[p] == x;
      assert r[p] == x;
    }
  }

  // ---- there is always a free slot, so every operation stops ----

  lemma {:induction false} Crowded(slots: seq<int>, start: int, m: nat)
    requires 0 <= start < |slots| && m <= |slots| && NoDup(slots)
    requires forall i {:trigger At(start, i, |slots|)} :: 0 <= i < m ==> slots[At(start, i, |slots|)] != FREE
    ensures Distinct(Contents(slots, start, m))
  {
    var cs := Contents(slots, start, m);
    forall i, j | 0 <= i < j < m ensures cs[i] != cs[j] {
      Around(start, i, |slots|);
      Around(start, j, |slots|);
      var p, q := At(start, i, |slots|), At(start, j, |slots|);
      assert cs[i] == slots[p] && cs[j] == slots[q];
      if p < q { assert slots[p] != slots[q]; } else { assert slots[q] != slots[p]; }
    }
  }

  /** Some slot at distance at most the number of elements is free. */
  lemma FreeSlot(g: Table, start: int) returns (i: nat)
    requires WellTabled(g) && 0 <= start < |g.slots|
    ensures i <= |g.elems| && g.slots[At(start, i, |g.slots|)] == FREE
    ensures forall j {:trigger At(start, j, |g.slots|)} :: 0 <= j < i ==> g.slots[At(start, j, |g.slots|)] != FREE
  {
    i := 0;
    while g.slots[At(start, i, |g.slots|)] != FREE
      invariant i <= |g.elems|
      invariant forall j {:trigger At(start, j, |g.slots|)} :: 0 <= j < i ==> g.slots[At(start, j, |g.slots|)] != FREE
      decreases |g.elems| - i
    {
      if i == |g.elems| {
        NotAllFull(g, start);
      }
      i := i + 1;
    }
  }

  lemma NotAllFull(g: Table, start: int)
    requires WellTabled(g) && 0 <= start < |g.slots|
    ensures exists j :: 0 <= j <= |g.elems| && g.slots[At(start, j, |g.slots|)] == FREE
  {
    var m := |g.elems| + 1;
    if forall j {:trigger At(start, j, |g.slots|)} :: 0 <= j < m ==> g.slots[At(start, j, |g.slots|)] != FREE {
      Crowded(g.slots, start, m);
      var cs := Contents(g.slots, start, m);
      forall x | x in cs ensures 0 <= x < |g.elems| {
        var i :| 0 <= i < m && cs[i] == x;
        Around(start, i, |g.slots|);
      }
      DistinctBelow(cs, |g.elems|);
    }
  }

  /** A probe that has reached a free slot needs no more. */
  lemma StopAtFree(elems: seq<Elem>, op: Op, k: int, cs: seq<int>)
    requires cs != [] && cs[|cs| - 1] == FREE
    ensures Stop(elems, op, k, cs)
  {}

  lemma Stops(g: Table, op: Op, k: int, start: int)
    requires WellTabled(g) && 0 <= start < |g.slots|
    ensures Stop(g.elems, op, k, Contents(g.slots, start, Need(g, op, k, start, 0)))
  {
    var i := FreeSlot(g, start);
    var r := Need(g, op, k, start, 0);
    StopAtFree(g.elems, op, k, Contents(g.slots, start, i + 1));
    assert r <= i + 1;
  }

  /** Only the last slot an operation takes can be free. */
  lemma SeenFull(g: Table, op: Op, k: int, start: int, b: int)
    requires 0 <= start < |g.slots|
    requires 0 <= b < Need(g, op, k, start, 0) - 1
    ensures g.slots[At(start, b, |g.slots|)] != FREE
  {
    var cs := Contents(g.slots, start, b + 1);
    assert cs[b] == g.slots[At(start, b, |g.slots|)];
    assert !Stop(g.elems, op, k, cs);
    if cs[b] == FREE { StopAtFree(g.elems, op, k, cs); }
  }

  // ---- an operation is what its outcome writes back ----

  lemma ApplyIs(g: Table, home: int -> int, op: Op, k: int, cs: seq<int>)
    requires Homes(home, |g.slots|) && k == KeyOf(g.elems, op) && |cs| <= |g.slots|
    requires cs == Contents(g.slots, home(k), Need(g, op, k, home(k), 0)) && Stop(g.elems, op, k, cs)
    ensures Apply(g, home, op) == Stored(g, home(k), Finish(g.elems, home, op, k, home(k), |g.slots|, cs))
  {}

  /** The table after an outcome is written back. */
  function Stored(g: Table, start: int, o: Outcome): Applied
    requires 0 <= start < |g.slots| && |o.cs| <= |g.slots|
  {
    Applied(Table(WriteBack(g.slots, start, o.cs),
                  if 0 <= o.x < |g.elems| then g.elems[o.x := o.elem] else g.elems), o.res)
  }
}
