/** What a probing loop knows once it has locked its slots, in terms of `Index.Apply`. */
module SlotRuns {
  import opened Index
  import opened IndexTable
  import opened IndexMap
  import opened IndexRemove
  import opened LruCache

  /** The slots with m of them locked from start. */
  function Locked(slots: seq<int>, start: int, m: nat): (r: seq<int>)
    requires 0 <= start < |slots| && m <= |slots|
    ensures |r| == |slots|
  {
    WriteBack(slots, start, seq(m, _ => LOCK))
  }

  lemma LockedNone(slots: seq<int>, start: int)
    requires 0 <= start < |slots|
    ensures Locked(slots, start, 0) == slots
  {
    var r := Locked(slots, start, 0);
    forall p | 0 <= p < |slots| ensures r[p] == slots[p] {
      Back(start, p, |slots|);
    }
  }

  lemma LockNext(slots: seq<int>, start: int, m: nat)
    requires 0 <= start < |slots| && m < |slots|
    ensures var p := At(start, m, |slots|);
            && 0 <= p < |slots| && Locked(slots, start, m)[p] == slots[p]
            && Locked(slots, start, m)[p := LOCK] == Locked(slots, start, m + 1)
            && Contents(slots, start, m) + [slots[p]] == Contents(slots, start, m + 1)
  {
    var p := At(start, m, |slots|);
    Around(start, m, |slots|);
    var r := Locked(slots, start, m)[p := LOCK];
    forall q | 0 <= q < |slots| ensures r[q] == Locked(slots, start, m + 1)[q] {
      Back(start, q, |slots|);
    }
  }

  lemma RingNext(start: int, m: nat, n: int)
    requires 0 <= start < n && 0 <= m < n
    ensures 0 <= At(start, m, n) < n && (At(start, m, n) + 1) % n == if m + 1 < n then At(start, m + 1, n) else start
  {
    var p := At(start, m, n);
    if p + 1 == n { assert (p + 1) % n == 0; } else { assert (p + 1) % n == p + 1; }
  }

  /** locks are the old contents of the slots held from start on; now are the slots as they are. */
  ghost predicate Grip(g: Table, start: int, locks: seq<int>, now: seq<int>) {
    && 0 <= start < |g.slots| && |locks| <= |g.slots| && WellTabled(g)
    && locks == Contents(g.slots, start, |locks|) && now == Locked(g.slots, start, |locks|)
  }

  lemma GripStart(g: Table, start: int)
    requires 0 <= start < |g.slots| && WellTabled(g)
    ensures Grip(g, start, [], g.slots)
  {
    LockedNone(g.slots, start);
  }

  /** Locking the next slot. */
  lemma GripNext(g: Table, start: int, locks: seq<int>, now: seq<int>, p: int)
    requires Grip(g, start, locks, now) && |locks| < |g.slots| && p == At(start, |locks|, |g.slots|)
    ensures 0 <= p < |now| && now[p] == g.slots[p] && Valid(now[p], |g.elems|) && now[p] != LOCK
    ensures Grip(g, start, locks + [now[p]], now[p := LOCK])
  {
    LockNext(g.slots, start, |locks|);
    assert Valid(g.slots[p], |g.elems|);
  }

  /** Unlocking writes the first i of the new contents; the others are still locked. */
  function Unlocked(slots: seq<int>, start: int, cs: seq<int>, i: nat): (r: seq<int>)
    requires 0 <= start < |slots| && i <= |cs| <= |slots|
    ensures |r| == |slots|
  {
    WriteBack(slots, start, cs[..i] + seq(|cs| - i, _ => LOCK))
  }

  lemma UnlockNext(slots: seq<int>, start: int, cs: seq<int>, i: nat)
    requires 0 <= start < |slots| && i < |cs| <= |slots|
    ensures var p := At(start, i, |slots|);
            0 <= p < |slots| && Unlocked(slots, start, cs, i)[p := cs[i]] == Unlocked(slots, start, cs, i + 1)
  {
    var p := At(start, i, |slots|);
    Around(start, i, |slots|);
    var r, u := Unlocked(slots, start, cs, i)[p := cs[i]], Unlocked(slots, start, cs, i + 1);
    forall q | 0 <= q < |slots| ensures r[q] == u[q] {
      Back(start, q, |slots|);
    }
  }

  // ---- probing ----

  /** No slot among the first m settles the search for key k. */
  ghost predicate Unsettled(g: Table, k: int, start: int, m: nat)
    requires 0 <= start < |g.slots| && m <= |g.slots|
  {
    Probe(g.elems, k, Contents(g.slots, start, m)) == m
  }

  lemma ProbePrefix(elems: seq<Elem>, k: int, cs: seq<int>, m: nat)
    requires m <= |cs|
    ensures Probe(elems, k, cs) < m ==> Probe(elems, k, cs[..m]) == Probe(elems, k, cs)
    ensures Probe(elems, k, cs) >= m ==> Probe(elems, k, cs[..m]) == m
  {
    var a, b := Probe(elems, k, cs), Probe(elems, k, cs[..m]);
    if b < m { assert Matches(elems, k, cs[b]); }
    if a < m { assert Matches(elems, k, cs[..m][a]); }
  }

  lemma ContentsPrefix(slots: seq<int>, start: int, i: nat, m: nat)
    requires 0 <= start < |slots| && i <= m <= |slots|
    ensures Contents(slots, start, m)[..i] == Contents(slots, start, i)
  {}

  lemma UnsettledStep(g: Table, k: int, start: int, m: nat)
    requires 0 <= start < |g.slots| && m < |g.slots| && Unsettled(g, k, start, m)
    ensures var cs := Contents(g.slots, start, m + 1);
            Probe(g.elems, k, cs) == if Matches(g.elems, k, cs[m]) then m else m + 1
  {
    var cs := Contents(g.slots, start, m + 1);
    ContentsPrefix(g.slots, start, m, m + 1);
    ProbePrefix(g.elems, k, cs, m);
  }

  lemma SettledByFree(g: Table, k: int, start: int, m: nat, i: nat)
    requires 0 <= start < |g.slots| && m <= |g.slots| && i < |g.slots| && g.slots[At(start, i, |g.slots|)] == FREE
    ensures Unsettled(g, k, start, m) ==> m <= i
  {
    var cs := Contents(g.slots, start, m);
    if i < m { assert Matches(g.elems, k, cs[i]); }
  }

  /** Nothing settled in the first m slots: the operation needs more. */
  lemma NeedsMore(g: Table, op: Op, k: int, start: int, m: nat)
    requires 0 <= start < |g.slots| && m <= |g.slots| && WellTabled(g) && Unsettled(g, k, start, m)
    ensures Need(g, op, k, start, 0) > m && m < |g.slots|
  {
    Stops(g, op, k, start);
    var r := Need(g, op, k, start, 0);
    if r <= m {
      ContentsPrefix(g.slots, start, r, m);
      ProbePrefix(g.elems, k, Contents(g.slots, start, m), r);
    }
    var i := FreeSlot(g, start);
    SettledByFree(g, k, start, m, i);
  }

  /** A probe that ends at the slot just locked: that is all the operation needs. */
  lemma NeedsThis(g: Table, op: Op, k: int, start: int, m: nat)
    requires 0 <= start < |g.slots| && m < |g.slots| && WellTabled(g) && Unsettled(g, k, start, m)
    requires Matches(g.elems, k, Contents(g.slots, start, m + 1)[m]) && !op.Remove?
    ensures Need(g, op, k, start, 0) == m + 1
  {
    NeedsMore(g, op, k, start, m);
    UnsettledStep(g, k, start, m);
    assert Stop(g.elems, op, k, Contents(g.slots, start, m + 1));
  }

  /** The probing loop for key k: nothing before the last slot locked settles the search. */
  ghost predicate Search(g: Table, k: int, start: int, locks: seq<int>, now: seq<int>) {
    Grip(g, start, locks, now) && locks != [] && Unsettled(g, k, start, |locks| - 1)
  }

  lemma SearchStart(g: Table, k: int, start: int)
    requires 0 <= start < |g.slots| && WellTabled(g)
    ensures Valid(g.slots[start], |g.elems|) && g.slots[start] != LOCK
    ensures Search(g, k, start, [g.slots[start]], g.slots[start := LOCK])
  {
    GripStart(g, start);
    GripNext(g, start, [], g.slots, start);
  }

  /** The slot last locked does not settle the search: go on to slot p. */
  lemma SearchOn(g: Table, op: Op, k: int, start: int, locks: seq<int>, now: seq<int>, p: int)
    requires Search(g, k, start, locks, now) && !Matches(g.elems, k, locks[|locks| - 1])
    requires p == At(start, |locks| - 1, |g.slots|)
    ensures |locks| < |g.slots| && Need(g, op, k, start, 0) > |locks| && 0 <= p < |g.slots|
    ensures var q := (p + 1) % |g.slots|;
            && 0 <= q < |now| && q == At(start, |locks|, |g.slots|)
            && Valid(now[q], |g.elems|) && now[q] != LOCK
            && Search(g, k, start, locks + [now[q]], now[q := LOCK])
  {
    UnsettledStep(g, k, start, |locks| - 1);
    NeedsMore(g, op, k, start, |locks|);
    RingNext(start, |locks| - 1, |g.slots|);
    GripNext(g, start, locks, now, At(start, |locks|, |g.slots|));
  }

  // ---- what the operations leave ----

  /** cs are the contents an operation other than a removal has locked: they end the probe. */
  ghost predicate Ended(g: Table, home: int -> int, op: Op, cs: seq<int>) {
    && Homes(home, |g.slots|) && !op.Remove? && cs == Seen(g, home, op) && cs != []
    && Probe(g.elems, op.k, cs) == |cs| - 1
  }

  lemma EndsFound(g: Table, home: int -> int, op: Op, cs: seq<int>)
    requires Sound(g, home) && Ended(g, home, op, cs)
    ensures cs[|cs| - 1] == Found(g, op.k)
    ensures Found(g, op.k) != FREE <==> op.k in Keys(g)
    ensures op.k in Keys(g) ==> 0 <= Found(g, op.k) < |g.elems| && Found(g, op.k) in g.slots
  {
    SeenEnds(g, home, op);
    FoundIs(g, home, op.k);
  }

  /** The slots an operation other than a removal needs end its probe. */
  lemma SeenEnded(g: Table, home: int -> int, op: Op)
    requires Sound(g, home) && !op.Remove?
    ensures Ended(g, home, op, Seen(g, home, op))
  {
    SeenEnds(g, home, op);
    var cs := Seen(g, home, op);
    var d := Probe(g.elems, op.k, cs);
    ProbePrefix(g.elems, op.k, cs, d + 1);
    ContentsPrefix(g.slots, home(op.k), d + 1, |cs|);
    if d + 1 < |cs| {
      assert Stop(g.elems, op, op.k, Contents(g.slots, home(op.k), d + 1));
    }
  }

  lemma ApplyHit(g: Table, home: int -> int, op: Op, cs: seq<int>)
    requires Sound(g, home) && Ended(g, home, op, cs) && op.k in Keys(g)
    ensures 0 <= Found(g, op.k) < |g.elems|
    ensures var x := Found(g, op.k);
            Apply(g, home, op) ==
            match op
            case Get(_) => Applied(g, Got(g.elems[x].val))
            case Set(_, v) => Applied(Table(g.slots, g.elems[x := g.elems[x].(val := v)]), Ok)
            case Insert(_, _, _) => Applied(g, Refused)
            case InsertOrSet(_, v, _) => Applied(Table(g.slots, g.elems[x := g.elems[x].(val := v)]), Refused)
            case Remove(_) => Applied(g, Refused)
  {
    SeenEnds(g, home, op);
    EndsFound(g, home, op, cs);
    HitApplies(g, home, op, cs, Found(g, op.k));
  }

  lemma HitApplies(g: Table, home: int -> int, op: Op, cs: seq<int>, x: int)
    requires Ended(g, home, op, cs) && x == cs[|cs| - 1] != FREE && 0 <= x < |g.elems| && Stop(g.elems, op, op.k, cs)
    ensures Apply(g, home, op) ==
            match op
            case Get(_) => Applied(g, Got(g.elems[x].val))
            case Set(_, v) => Applied(Table(g.slots, g.elems[x := g.elems[x].(val := v)]), Ok)
            case Insert(_, _, _) => Applied(g, Refused)
            case InsertOrSet(_, v, _) => Applied(Table(g.slots, g.elems[x := g.elems[x].(val := v)]), Refused)
            case Remove(_) => Applied(g, Refused)
  {
    ApplyIs(g, home, op, op.k, cs);
    WriteSame(g.slots, home(op.k), |cs|);
  }

  lemma ApplyMiss(g: Table, home: int -> int, op: Op, cs: seq<int>)
    requires Sound(g, home) && Ended(g, home, op, cs) && op.k !in Keys(g) && (op.Get? || op.Set?)
    ensures Apply(g, home, op) == Applied(g, if op.Get? then NotFound else Refused)
  {
    SeenEnds(g, home, op);
    WriteSame(g.slots, home(op.k), |cs|);
  }

  lemma ApplyAdd(g: Table, home: int -> int, op: Op, cs: seq<int>)
    requires Sound(g, home) && Ended(g, home, op, cs) && op.k !in Keys(g) && (op.Insert? || op.InsertOrSet?)
    requires 0 <= op.e < |g.elems|
    ensures |cs| <= |g.slots|
    ensures Apply(g, home, op) ==
            Applied(Table(WriteBack(g.slots, home(op.k), cs[|cs| - 1 := op.e]), g.elems[op.e := Elem(op.k, op.v)]), Ok)
  {
    SeenEnds(g, home, op);
  }

  // ---- removal ----

  /** The rest of a run: occupied up to a closing free slot. */
  ghost predicate Closed(elems: seq<Elem>, cs: seq<int>) {
    && cs != [] && cs[|cs| - 1] == FREE && |elems| <= LOCK
    && forall b {:trigger cs[b]} :: 0 <= b < |cs| - 1 ==> 0 <= cs[b] < |elems|
  }

  /** How far the second half of removeFromHashPos has come in run cs: locks is what it will
      write to the slots it holds, and hole the position to fill. */
  ghost predicate Walking(elems: seq<Elem>, home: int -> int, start: int, n: int, cs: seq<int>, d: nat,
                          locks: seq<int>, hole: nat) {
    && d < |cs| && hole + 1 < |locks| <= |cs|
    && locks[|locks| - 1] == cs[|locks| - 1]
    && Shift(elems, home, start, n, cs, d, d + 1) ==
       Shift(elems, home, start, n, locks + cs[|locks|..], hole, |locks| - 1)
  }

  lemma WalkStarts(elems: seq<Elem>, home: int -> int, start: int, n: int, cs: seq<int>, d: nat)
    requires d + 1 < |cs|
    ensures Walking(elems, home, start, n, cs, d, cs[..d + 2], d)
  {
    assert cs[..d + 2] + cs[d + 2..] == cs;
  }

  /** One turn of the loop: the element just locked fills the hole or stays. */
  lemma WalkOn(elems: seq<Elem>, home: int -> int, start: int, n: int, cs: seq<int>, d: nat, locks: seq<int>, hole: nat)
    requires Closed(elems, cs) && Walking(elems, home, start, n, cs, d, locks, hole) && locks[|locks| - 1] != FREE
    ensures |locks| < |cs| && 0 <= locks[|locks| - 1] < |elems|
    ensures var i := |locks| - 1;
            var x := locks[i];
            if home(elems[x].key) <= At(start, hole, n)
            then Walking(elems, home, start, n, cs, d, locks[hole := x] + [cs[i + 1]], i)
            else Walking(elems, home, start, n, cs, d, locks + [cs[i + 1]], hole)
  {
    var i := |locks| - 1;
    assert i < |cs| - 1;
    var x := locks[i];
    var all := locks + cs[|locks|..];
    assert all[i] == x;
    assert locks + [cs[i + 1]] + cs[i + 2..] == all;
    assert locks[hole := x] + [cs[i + 1]] + cs[i + 2..] == all[hole := x];
  }

  lemma WalkEnd(elems: seq<Elem>, home: int -> int, start: int, n: int, cs: seq<int>, d: nat, locks: seq<int>,
                hole: nat)
    requires Closed(elems, cs) && Walking(elems, home, start, n, cs, d, locks, hole) && locks[|locks| - 1] == FREE
    ensures |locks| == |cs|
    ensures Shift(elems, home, start, n, cs, d, d + 1) == locks[hole := FREE]
  {
    assert cs[|locks| - 1] == FREE;
    assert locks + cs[|locks|..] == locks;
  }

  /** The run removeFromHashPos(e) locks, and where it finds e. */
  ghost predicate Running(g: Table, home: int -> int, e: int, start: int, cs: seq<int>, d: nat) {
    && 0 <= e < |g.elems| && start == home(g.elems[e].key) && 0 <= start < |g.slots|
    && |cs| <= |g.slots| && cs == Contents(g.slots, start, |cs|) && d == Probe(g.elems, g.elems[e].key, cs)
    && d + 1 < |cs| && cs[d] == e && Closed(g.elems, cs)
  }

  lemma StretchClosed(g: Table, start: int, cs: seq<int>)
    requires WellTabled(g) && 0 <= start < |g.slots| && |cs| <= |g.slots| && cs == Contents(g.slots, start, |cs|)
    requires Stretch(cs)
    ensures Closed(g.elems, cs)
  {
    forall b | 0 <= b < |cs| - 1 ensures 0 <= cs[b] < |g.elems| {
      Around(start, b, |g.slots|);
      assert cs[b] != FREE;
    }
  }

  lemma RunShape(g: Table, home: int -> int, e: int, start: int, cs: seq<int>, d: nat)
    requires 0 <= e < |g.elems| && WellTabled(g) && Homes(home, |g.slots|)
    requires start == home(g.elems[e].key)
    requires cs == Contents(g.slots, start, Need(g, Remove(e), g.elems[e].key, start, 0))
    requires d == Probe(g.elems, g.elems[e].key, cs) && d + 1 < |cs| && cs[d] == e && Stretch(cs)
    ensures Running(g, home, e, start, cs, d) && |cs| == Need(g, Remove(e), g.elems[e].key, start, 0)
  {
    StretchClosed(g, start, cs);
  }

  /** The whole call. */
  ghost predicate Removed(g: Table, home: int -> int, e: int, start: int, cs: seq<int>, d: nat)
    requires Running(g, home, e, start, cs, d) && Homes(home, |g.slots|)
  {
    Apply(g, home, Remove(e)) ==
    Applied(After(g, start, Shift(g.elems, home, start, |g.slots|, cs, d, d + 1)), Ok)
  }

  lemma RunIs(g: Table, home: int -> int, e: int) returns (start: int, cs: seq<int>, d: nat)
    requires Sound(g, home) && 0 <= e < |g.elems| && e in g.slots
    ensures Running(g, home, e, start, cs, d) && Removed(g, home, e, start, cs, d)
    ensures |cs| == Need(g, Remove(e), g.elems[e].key, start, 0)
  {
    start, cs, d := home(g.elems[e].key), Seen(g, home, Remove(e)), 0;
    d := Probe(g.elems, g.elems[e].key, cs);
    RemovalRun(g, home, e);
    RunShape(g, home, e, start, cs, d);
    RemoveWrites(g, home, e, cs, d);
  }

  /** The run is found where the first half stops. */
  lemma RunFound(g: Table, home: int -> int, e: int, start: int, cs: seq<int>, d: nat, m: nat)
    requires Running(g, home, e, start, cs, d) && m < |g.slots|
    requires Unsettled(g, g.elems[e].key, start, m)
    requires Matches(g.elems, g.elems[e].key, Contents(g.slots, start, m + 1)[m])
    ensures m == d && Contents(g.slots, start, m + 1) == cs[..m + 1]
  {
    var k := g.elems[e].key;
    UnsettledStep(g, k, start, m);
    if m + 1 <= |cs| {
      ContentsPrefix(g.slots, start, m + 1, |cs|);
      ProbePrefix(g.elems, k, cs, m + 1);
    } else {
      FoundWithin(g, k, start, cs, m);
    }
  }

  /** A probe that ended within cs has ended there for a longer stretch too. */
  lemma FoundWithin(g: Table, k: int, start: int, cs: seq<int>, m: nat)
    requires 0 <= start < |g.slots| && |cs| <= m < |g.slots| && cs == Contents(g.slots, start, |cs|)
    requires Probe(g.elems, k, cs) < |cs|
    ensures Probe(g.elems, k, Contents(g.slots, start, m + 1)) < |cs|
  {
    ContentsPrefix(g.slots, start, |cs|, m + 1);
    ProbePrefix(g.elems, k, Contents(g.slots, start, m + 1), |cs|);
  }

  ghost predicate Hold(g: Table, start: int, cs: seq<int>, m: nat, now: seq<int>) {
    && 0 <= start < |g.slots| && m <= |cs| <= |g.slots|
    && cs == Contents(g.slots, start, |cs|) && now == Locked(g.slots, start, m)
  }

  /** Locking the slot after p, the last of m held so far. */
  lemma HoldOn(g: Table, start: int, cs: seq<int>, m: nat, now: seq<int>, p: int)
    requires Closed(g.elems, cs) && Hold(g, start, cs, m, now) && 0 < m < |cs| && p == At(start, m - 1, |g.slots|)
    ensures 0 <= p < |g.slots|
    ensures var q := (p + 1) % |g.slots|;
            && 0 <= q < |now| && q == At(start, m, |g.slots|) && now[q] == cs[m] && now[q] != LOCK
            && Hold(g, start, cs, m + 1, now[q := LOCK])
  {
    RingNext(start, m - 1, |g.slots|);
    LockNext(g.slots, start, m);
    assert cs[m] == g.slots[At(start, m, |g.slots|)];
  }

  /** Both: the slots up to the end of locks are held, and locks is on its way to the result. */
  ghost predicate Shifting(g: Table, home: int -> int, start: int, cs: seq<int>, d: nat, locks: seq<int>, hole: int,
                           now: seq<int>) {
    && 0 <= hole && Closed(g.elems, cs) && Hold(g, start, cs, |locks|, now)
    && Walking(g.elems, home, start, |g.slots|, cs, d, locks, hole)
  }

  lemma ShiftStarts(g: Table, home: int -> int, start: int, cs: seq<int>, d: nat, locks: seq<int>, now: seq<int>,
                    p: int)
    requires Closed(g.elems, cs) && d + 1 < |cs| && locks == cs[..d + 1] && Hold(g, start, cs, d + 1, now)
    requires p == At(start, d, |g.slots|)
    ensures 0 <= p < |g.slots|
    ensures var q := (p + 1) % |g.slots|;
            && 0 <= q < |now| && q == At(start, d + 1, |g.slots|) && now[q] != LOCK
            && Shifting(g, home, start, cs, d, locks + [now[q]], d, now[q := LOCK])
  {
    HoldOn(g, start, cs, d + 1, now, p);
    WalkStarts(g.elems, home, start, |g.slots|, cs, d);
    assert locks + [cs[d + 1]] == cs[..d + 2];
  }

  lemma ShiftsOn(g: Table, home: int -> int, start: int, cs: seq<int>, d: nat, locks: seq<int>, hole: int,
                 now: seq<int>, p: int)
    returns (locks': seq<int>, hole': int)
    requires Shifting(g, home, start, cs, d, locks, hole, now) && locks[|locks| - 1] != FREE
    requires p == At(start, |locks| - 1, |g.slots|)
    ensures |locks| < |cs| && 0 <= locks[|locks| - 1] < |g.elems| && 0 <= p < |g.slots|
    ensures var x := locks[|locks| - 1];
            if home(g.elems[x].key) <= At(start, hole, |g.slots|)
            then locks' == locks[hole := x] && hole' == |locks| - 1
            else locks' == locks && hole' == hole
    ensures var q := (p + 1) % |g.slots|;
            && 0 <= q < |now| && q == At(start, |locks|, |g.slots|) && now[q] != LOCK
            && Shifting(g, home, start, cs, d, locks' + [now[q]], hole', now[q := LOCK])
  {
    WalkOn(g.elems, home, start, |g.slots|, cs, d, locks, hole);
    HoldOn(g, start, cs, |locks|, now, p);
    locks', hole' := Shifted(g, home, start, locks, hole);
  }

  /** The walk's decision about the element just locked. */
  lemma Shifted(g: Table, home: int -> int, start: int, locks: seq<int>, hole: int)
    returns (locks': seq<int>, hole': int)
    requires 0 <= hole < |locks| && 0 <= locks[|locks| - 1] < |g.elems|
    ensures var x := locks[|locks| - 1];
            if home(g.elems[x].key) <= At(start, hole, |g.slots|)
            then locks' == locks[hole := x] && hole' == |locks| - 1
            else locks' == locks && hole' == hole
  {
    var x := locks[|locks| - 1];
    if home(g.elems[x].key) <= At(start, hole, |g.slots|) {
      locks', hole' := locks[hole := x], |locks| - 1;
    } else {
      locks', hole' := locks, hole;
    }
  }

  lemma ShiftEnds(g: Table, home: int -> int, start: int, cs: seq<int>, d: nat, locks: seq<int>, hole: int,
                  now: seq<int>)
    requires Shifting(g, home, start, cs, d, locks, hole, now) && locks[|locks| - 1] == FREE
    ensures |locks| == |cs| && now == Locked(g.slots, start, |cs|)
    ensures locks[hole := FREE] == Shift(g.elems, home, start, |g.slots|, cs, d, d + 1)
  {
    WalkEnd(g.elems, home, start, |g.slots|, cs, d, locks, hole);
  }

  /** What the first half of a removal hands to the second. */
  lemma FirstHalf(g: Table, home: int -> int, e: int, start: int, cs: seq<int>, d: nat, locks: seq<int>, now: seq<int>)
    requires Running(g, home, e, start, cs, d) && Search(g, g.elems[e].key, start, locks, now)
    requires Matches(g.elems, g.elems[e].key, locks[|locks| - 1])
    ensures |locks| == d + 1 && locks == cs[..d + 1] && Hold(g, start, cs, d + 1, now) && locks[d] != FREE
    ensures Closed(g.elems, cs) && d + 1 < |cs| <= |g.slots|
  {
    RunFound(g, home, e, start, cs, d, |locks| - 1);
  }

  lemma SearchProbe(g: Table, k: int, start: int, locks: seq<int>, now: seq<int>)
    requires Search(g, k, start, locks, now) && Matches(g.elems, k, locks[|locks| - 1])
    ensures Probe(g.elems, k, locks) == |locks| - 1
  {
    UnsettledStep(g, k, start, |locks| - 1);
  }

  /** The probing loop has ended: locks are all the slots the operation needs. */
  lemma SearchEnded(g: Table, home: int -> int, op: Op, locks: seq<int>, now: seq<int>)
    requires Sound(g, home) && !op.Remove? && Search(g, op.k, home(op.k), locks, now)
    requires Matches(g.elems, op.k, locks[|locks| - 1]) && |locks| == Need(g, op, op.k, home(op.k), 0)
    ensures Ended(g, home, op, locks)
  {
    SearchProbe(g, op.k, home(op.k), locks, now);
    assert KeyOf(g.elems, op) == op.k;
  }

  /** The slots held can be given back. */
  lemma SearchHolds(g: Table, k: int, start: int, locks: seq<int>, now: seq<int>)
    requires Search(g, k, start, locks, now)
    ensures now == Locked(g.slots, start, |locks|) && WriteBack(g.slots, start, locks) == g.slots
  {
    WriteSame(g.slots, start, |locks|);
  }
}
