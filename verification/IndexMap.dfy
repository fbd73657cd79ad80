/**
 The index as a finite map: lookups find exactly the stored keys, insertion and update have
 their usual meaning, and removal keeps every other key reachable exactly when `ShiftIsSafe`.
 */
module IndexMap {
  import opened Index
  import opened IndexTable

  function Minus(p: int, b: int, n: int): int {
    if p >= b then p - b else p - b + n
  }

  ghost predicate Full(g: Table, p: int) {
    0 <= p < |g.slots| && 0 <= g.slots[p] < |g.elems|
  }

  /** Probing for the key at slot p meets no free slot on the way. */
  ghost predicate Reach(g: Table, home: int -> int, p: int)
    requires Full(g, p) && Homes(home, |g.slots|)
  {
    var depth := Off(home(g.elems[g.slots[p]].key), p, |g.slots|);
    forall b {:trigger Minus(p, b, |g.slots|)} :: 1 <= b <= depth ==> g.slots[Minus(p, b, |g.slots|)] != FREE
  }

  ghost predicate UniqueKeys(g: Table) {
    forall p, q {:trigger g.slots[p], g.slots[q]} ::
      Full(g, p) && Full(g, q) && g.elems[g.slots[p]].key == g.elems[g.slots[q]].key ==> p == q
  }

  /** Every stored key can be found, and is stored once. */
  ghost predicate Sound(g: Table, home: int -> int) {
    && WellTabled(g) && Homes(home, |g.slots|) && UniqueKeys(g)
    && forall p {:trigger Reach(g, home, p)} :: Full(g, p) ==> Reach(g, home, p)
  }

  // ---- the map ----

  ghost function Keys(g: Table): set<int> {
    set p | 0 <= p < |g.slots| && 0 <= g.slots[p] < |g.elems| :: g.elems[g.slots[p]].key
  }

  /** The slot that stores key k. */
  ghost function SlotOf(g: Table, k: int): (p: int)
    requires k in Keys(g)
    ensures Full(g, p) && g.elems[g.slots[p]].key == k
  {
    var p :| Full(g, p) && g.elems[g.slots[p]].key == k;
    p
  }

  ghost function View(g: Table): map<int, int> {
    map k | k in Keys(g) :: g.elems[g.slots[SlotOf(g, k)]].val
  }

  lemma ViewAt(g: Table, p: int)
    requires UniqueKeys(g) && Full(g, p)
    ensures var e := g.elems[g.slots[p]]; e.key in Keys(g) && SlotOf(g, e.key) == p && View(g)[e.key] == e.val
  {
    var k := g.elems[g.slots[p]].key;
    assert k in Keys(g);
    assert g.slots[SlotOf(g, k)] == g.slots[SlotOf(g, k)];
  }

  // ---- finding a key ----

  /** What an operation on key k meets: the slots it takes and the position that ends its probe. */
  ghost function Seen(g: Table, home: int -> int, op: Op): seq<int>
    requires Homes(home, |g.slots|)
  {
    var k := KeyOf(g.elems, op);
    Contents(g.slots, home(k), Need(g, op, k, home(k), 0))
  }

  lemma Behind(start: int, p: int, j: int, n: int)
    requires 0 <= start < n && 0 <= p < n && 0 <= j <= Off(start, p, n)
    ensures At(start, j, n) == Minus(p, Off(start, p, n) - j, n)
  {}

  /** No free slot lies between a stored key's home and its slot. */
  lemma NoneBefore(g: Table, home: int -> int, p: int, j: int)
    requires Sound(g, home) && Full(g, p)
    requires var start := home(g.elems[g.slots[p]].key); 0 <= j < Off(start, p, |g.slots|)
    ensures var start := home(g.elems[g.slots[p]].key); g.slots[At(start, j, |g.slots|)] != FREE
  {
    assert Reach(g, home, p);
    Behind(home(g.elems[g.slots[p]].key), p, j, |g.slots|);
  }

  /** A probe over enough slots ends at the key exactly when the key is stored. */
  lemma ProbeFinds(g: Table, home: int -> int, k: int, m: nat)
    requires Sound(g, home) && m <= |g.slots|
    requires Probe(g.elems, k, Contents(g.slots, home(k), m)) < m
    ensures var cs := Contents(g.slots, home(k), m);
            var d := Probe(g.elems, k, cs);
            && (cs[d] != FREE <==> k in Keys(g))
            && (cs[d] != FREE ==> At(home(k), d, |g.slots|) == SlotOf(g, k) && cs[d] == g.slots[SlotOf(g, k)])
  {
    var n, start := |g.slots|, home(k);
    var cs := Contents(g.slots, start, m);
    var d := Probe(g.elems, k, cs);
    Around(start, d, n);
    if cs[d] != FREE {
      ViewAt(g, At(start, d, n));
    }
    if k in Keys(g) {
      var p := SlotOf(g, k);
      var i := Off(start, p, n);
      Back(start, p, n);
      if d < i { NoneBefore(g, home, p, d); }
      if i < m { assert cs[i] == g.slots[p]; }
    }
  }

  lemma SeenEnds(g: Table, home: int -> int, op: Op)
    requires Sound(g, home)
    ensures var k, cs := KeyOf(g.elems, op), Seen(g, home, op);
            var d := Probe(g.elems, k, cs);
            && Stop(g.elems, op, k, cs)
            && d < |cs|
            && (cs[d] != FREE <==> k in Keys(g))
            && (cs[d] != FREE ==> At(home(k), d, |g.slots|) == SlotOf(g, k) && cs[d] == g.slots[SlotOf(g, k)])
  {
    var k := KeyOf(g.elems, op);
    Stops(g, op, k, home(k));
    ProbeFinds(g, home, k, Need(g, op, k, home(k), 0));
  }

  lemma WriteSame(slots: seq<int>, start: int, m: nat)
    requires 0 <= start < |slots| && m <= |slots|
    ensures WriteBack(slots, start, Contents(slots, start, m)) == slots
  {
    var cs := Contents(slots, start, m);
    var r := WriteBack(slots, start, cs);
    forall p | 0 <= p < |slots| ensures r[p] == slots[p] {
      Back(start, p, |slots|);
    }
  }

  /** get answers from the map and changes nothing in the index. */
  lemma GetMeaning(g: Table, home: int -> int, k: int)
    requires Sound(g, home)
    ensures Apply(g, home, Get(k)) ==
            Applied(g, if k in Keys(g) then Got(View(g)[k]) else NotFound)
  {
    SeenEnds(g, home, Get(k));
    WriteSame(g.slots, home(k), |Seen(g, home, Get(k))|);
    if k in Keys(g) { ViewAt(g, SlotOf(g, k)); }
  }

  // ---- replacing a value ----

  lemma SlotsApart(slots: seq<int>, p: int, q: int)
    requires NoDup(slots) && 0 <= p < |slots| && 0 <= q < |slots| && p != q && slots[p] != FREE
    ensures slots[p] != slots[q]
  {}

  /** Same slots, same keys: only values may differ. */
  ghost predicate SameShape(g: Table, g': Table) {
    && g'.slots == g.slots && |g'.elems| == |g.elems|
    && forall x {:trigger g'.elems[x]} :: 0 <= x < |g.elems| ==> g'.elems[x].key == g.elems[x].key
  }

  lemma SameShapeSound(g: Table, g': Table, home: int -> int)
    requires Sound(g, home) && SameShape(g, g')
    ensures Sound(g', home) && Keys(g') == Keys(g)
  {
    forall q | Full(g', q) ensures Reach(g', home, q) {
      assert Reach(g, home, q);
      assert g'.elems[g'.slots[q]].key == g.elems[g.slots[q]].key;
    }
    forall p, q | Full(g', p) && Full(g', q) && g'.elems[g'.slots[p]].key == g'.elems[g'.slots[q]].key ensures p == q {
      assert g.elems[g.slots[p]].key == g.elems[g.slots[q]].key;
    }
    assert Keys(g') <= Keys(g);
    forall k | k in Keys(g) ensures k in Keys(g') {
      var p := SlotOf(g, k);
      assert g'.elems[g'.slots[p]].key == k;
    }
  }

  /** A map that has the stored keys and their values is the view. */
  lemma ViewIs(g: Table, m: map<int, int>)
    requires Keys(g) == m.Keys
    requires forall p {:trigger Full(g, p)} :: Full(g, p) ==>
               g.elems[g.slots[p]].key in m && m[g.elems[g.slots[p]].key] == g.elems[g.slots[p]].val
    ensures View(g) == m
  {
    forall k | k in m ensures View(g)[k] == m[k] {
      assert Full(g, SlotOf(g, k));
    }
  }

  lemma Revalue(g: Table, home: int -> int, p: int, v: int)
    requires Sound(g, home) && Full(g, p)
    ensures var x := g.slots[p];
            var g' := Table(g.slots, g.elems[x := g.elems[x].(val := v)]);
            Sound(g', home) && View(g') == View(g)[g.elems[x].key := v]
  {
    var x := g.slots[p];
    var g' := Table(g.slots, g.elems[x := g.elems[x].(val := v)]);
    SameShapeSound(g, g', home);
    ViewAt(g, p);
    var m := View(g)[g.elems[x].key := v];
    forall q | Full(g', q)
      ensures g'.elems[g'.slots[q]].key in m && m[g'.elems[g'.slots[q]].key] == g'.elems[g'.slots[q]].val
    {
      RevalueAt(g, home, p, v, q);
    }
    ViewIs(g', m);
  }

  lemma RevalueAt(g: Table, home: int -> int, p: int, v: int, q: int)
    requires Sound(g, home) && Full(g, p) && Full(g, q)
    ensures var m := View(g)[g.elems[g.slots[p]].key := v];
            var e := g.elems[g.slots[q]];
            e.key in m && m[e.key] == if p == q then v else e.val
    ensures p != q ==> g.slots[p] != g.slots[q]
  {
    ViewAt(g, q);
    if p != q { SlotsApart(g.slots, p, q); }
  }

  /** set replaces the value of a stored key and refuses any other. */
  lemma SetMeaning(g: Table, home: int -> int, k: int, v: int)
    requires Sound(g, home)
    ensures var r := Apply(g, home, Set(k, v));
            && Sound(r.t, home) && r.t.slots == g.slots
            && r.res == (if k in Keys(g) then Ok else Refused)
            && View(r.t) == (if k in Keys(g) then View(g)[k := v] else View(g))
  {
    SeenEnds(g, home, Set(k, v));
    WriteSame(g.slots, home(k), |Seen(g, home, Set(k, v))|);
    if k in Keys(g) { Revalue(g, home, SlotOf(g, k), v); }
  }

  // ---- adding a key ----

  lemma WriteOne(slots: seq<int>, start: int, m: nat, d: nat, e: int)
    requires 0 <= start < |slots| && d < m <= |slots|
    ensures WriteBack(slots, start, Contents(slots, start, m)[d := e]) == slots[At(start, d, |slots|) := e]
  {
    var cs := Contents(slots, start, m)[d := e];
    var r := WriteBack(slots, start, cs);
    Around(start, d, |slots|);
    forall p | 0 <= p < |slots| ensures r[p] == slots[At(start, d, |slots|) := e][p] {
      Back(start, p, |slots|);
    }
  }

  /** The table with element e, holding key k and value v, put into the free slot q. */
  function Placed(g: Table, q: int, e: int, k: int, v: int): Table
    requires 0 <= q < |g.slots| && 0 <= e < |g.elems|
  {
    Table(g.slots[q := e], g.elems[e := Elem(k, v)])
  }

  /** q is where a new key k goes. */
  ghost predicate Vacant(g: Table, home: int -> int, q: int, e: int, k: int) {
    && Sound(g, home) && 0 <= q < |g.slots| && g.slots[q] == FREE
    && 0 <= e < |g.elems| && e !in g.slots && k !in Keys(g)
    && forall b {:trigger Minus(q, b, |g.slots|)} :: 1 <= b <= Off(home(k), q, |g.slots|) ==>
         g.slots[Minus(q, b, |g.slots|)] != FREE
  }

  lemma PlacedOld(g: Table, home: int -> int, q: int, e: int, k: int, v: int, p: int)
    requires Vacant(g, home, q, e, k) && Full(g, p)
    ensures var g' := Placed(g, q, e, k, v);
            p != q && Full(g', p) && g'.elems[g'.slots[p]] == g.elems[g.slots[p]] && Reach(g', home, p)
    ensures g.elems[g.slots[p]].key != k
  {
    assert Reach(g, home, p);
    assert g.slots[p] in g.slots;
    assert g.elems[g.slots[p]].key in Keys(g);
  }

  lemma PlacedSound(g: Table, home: int -> int, q: int, e: int, k: int, v: int)
    requires Vacant(g, home, q, e, k)
    ensures Sound(Placed(g, q, e, k, v), home)
  {
    var g' := Placed(g, q, e, k, v);
    forall p | Full(g', p) ensures Reach(g', home, p) {
      if p != q { PlacedOld(g, home, q, e, k, v, p); }
    }
    forall a, b | Full(g', a) && Full(g', b) && g'.elems[g'.slots[a]].key == g'.elems[g'.slots[b]].key ensures a == b {
      if a != q { PlacedOld(g, home, q, e, k, v, a); }
      if b != q { PlacedOld(g, home, q, e, k, v, b); }
    }
    forall a, b | 0 <= a < b < |g'.slots| && g'.slots[a] == g'.slots[b] ensures g'.slots[a] == FREE {}
  }

  lemma PlacedView(g: Table, home: int -> int, q: int, e: int, k: int, v: int)
    requires Vacant(g, home, q, e, k)
    ensures View(Placed(g, q, e, k, v)) == View(g)[k := v]
  {
    var g', m := Placed(g, q, e, k, v), View(g)[k := v];
    forall p | Full(g', p)
      ensures g'.elems[g'.slots[p]].key in m && m[g'.elems[g'.slots[p]].key] == g'.elems[g'.slots[p]].val
    {
      if p != q {
        PlacedOld(g, home, q, e, k, v, p);
        ViewAt(g, p);
      }
    }
    forall j | j in m ensures j in Keys(g') {
      if j == k {
        assert Full(g', q);
      } else {
        var p := SlotOf(g, j);
        PlacedOld(g, home, q, e, k, v, p);
      }
    }
    ViewIs(g', m);
  }

  lemma ProbeEndsVacant(g: Table, home: int -> int, op: Op)
    requires Sound(g, home) && KeyOf(g.elems, op) !in Keys(g)
    ensures var k, cs := KeyOf(g.elems, op), Seen(g, home, op);
            var q := At(home(k), Probe(g.elems, k, cs), |g.slots|);
            && 0 <= q < |g.slots| && g.slots[q] == FREE
            && (forall b {:trigger Minus(q, b, |g.slots|)} :: 1 <= b <= Off(home(k), q, |g.slots|) ==>
                  g.slots[Minus(q, b, |g.slots|)] != FREE)
  {
    SeenEnds(g, home, op);
    var n, k, cs := |g.slots|, KeyOf(g.elems, op), Seen(g, home, op);
    var d := Probe(g.elems, k, cs);
    Around(home(k), d, n);
    var q := At(home(k), d, n);
    forall b | 1 <= b <= d ensures g.slots[Minus(q, b, n)] != FREE {
      Behind(home(k), q, d - b, n);
      assert !Matches(g.elems, k, cs[d - b]);
    }
  }

  lemma InsertNew(g: Table, home: int -> int, op: Op)
    requires Sound(g, home) && (op.Insert? || op.InsertOrSet?)
    requires 0 <= op.e < |g.elems| && op.e !in g.slots && op.k !in Keys(g)
    ensures var q := At(home(op.k), Probe(g.elems, op.k, Seen(g, home, op)), |g.slots|);
            && 0 <= q < |g.slots| && g.slots[q] == FREE && Vacant(g, home, q, op.e, op.k)
            && Apply(g, home, op) == Applied(Placed(g, q, op.e, op.k, op.v), Ok)
  {
    var k, cs := op.k, Seen(g, home, op);
    SeenEnds(g, home, op);
    ProbeEndsVacant(g, home, op);
    WriteOne(g.slots, home(k), |cs|, Probe(g.elems, k, cs), op.e);
  }

  lemma InsertOld(g: Table, home: int -> int, op: Op)
    requires Sound(g, home) && (op.Insert? || op.InsertOrSet?) && op.k in Keys(g)
    ensures var x := g.slots[SlotOf(g, op.k)];
            Apply(g, home, op) ==
            Applied(if op.Insert? then g else Table(g.slots, g.elems[x := g.elems[x].(val := op.v)]), Refused)
  {
    SeenEnds(g, home, op);
    var cs := Seen(g, home, op);
    OldApplies(g, home, op, cs, Probe(g.elems, op.k, cs));
  }

  /** A probe that ended at an element with the key. */
  lemma OldApplies(g: Table, home: int -> int, op: Op, cs: seq<int>, d: nat)
    requires Homes(home, |g.slots|) && (op.Insert? || op.InsertOrSet?) && cs == Seen(g, home, op)
    requires d == Probe(g.elems, op.k, cs) < |cs| && 0 <= cs[d] < |g.elems| && cs[d] != FREE
    ensures var x := cs[d];
            Apply(g, home, op) ==
            Applied(if op.Insert? then g else Table(g.slots, g.elems[x := g.elems[x].(val := op.v)]), Refused)
  {
    ApplyIs(g, home, op, op.k, cs);
    WriteSame(g.slots, home(op.k), |cs|);
  }

  /** insert and insertOrSet on a new key add it; on a stored key the first refuses and the
      second replaces the value.  Element e must not be indexed already. */
  lemma InsertMeaning(g: Table, home: int -> int, op: Op)
    requires Sound(g, home) && (op.Insert? || op.InsertOrSet?)
    requires 0 <= op.e < |g.elems| && op.e !in g.slots
    ensures var r := Apply(g, home, op);
            && Sound(r.t, home)
            && r.res == (if op.k in Keys(g) then Refused else Ok)
            && View(r.t) == (if op.k in Keys(g) && op.Insert? then View(g) else View(g)[op.k := op.v])
            && (op.k in Keys(g) ==> r.t.slots == g.slots)
            && (op.k !in Keys(g) ==>
                exists q :: 0 <= q < |g.slots| && g.slots[q] == FREE && r.t.slots == g.slots[q := op.e])
  {
    if op.k in Keys(g) {
      InsertOld(g, home, op);
      if op.InsertOrSet? { Revalue(g, home, SlotOf(g, op.k), op.v); }
    } else {
      InsertNew(g, home, op);
      var q := At(home(op.k), Probe(g.elems, op.k, Seen(g, home, op)), |g.slots|);
      PlacedSound(g, home, q, op.e, op.k, op.v);
      PlacedView(g, home, q, op.e, op.k, op.v);
    }
  }

  // ---- soundness is what lookups need ----

  /** Every lookup gives the answer of the map. */
  ghost predicate Answers(g: Table, home: int -> int)
    requires Homes(home, |g.slots|)
  {
    forall k {:trigger k in Keys(g)} :: Apply(g, home, Get(k)).res == if k in Keys(g) then Got(View(g)[k]) else NotFound
  }

  /** A key behind a free slot is not found although it is stored. */
  lemma Lost(g: Table, home: int -> int, p: int)
    requires WellTabled(g) && Homes(home, |g.slots|) && UniqueKeys(g) && Full(g, p) && !Reach(g, home, p)
    ensures var k := g.elems[g.slots[p]].key; k in Keys(g) && Apply(g, home, Get(k)).res == NotFound
  {
    var n, k := |g.slots|, g.elems[g.slots[p]].key;
    var start := home(k);
    ViewAt(g, p);
    Back(start, p, n);
    var i := Off(start, p, n);
    var b :| 1 <= b <= i && g.slots[Minus(p, b, n)] == FREE;
    Behind(start, p, i - b, n);
    var d := ProbeBefore(g, k, start, i - b);
    Around(start, d, n);
    MissApplies(g, home, k, d, p);
  }

  /** A lookup goes no further than a free slot. */
  lemma ProbeBefore(g: Table, k: int, start: int, j: nat) returns (d: nat)
    requires WellTabled(g) && 0 <= start < |g.slots| && j < |g.slots| && g.slots[At(start, j, |g.slots|)] == FREE
    ensures var m := Need(g, Get(k), k, start, 0);
            d == Probe(g.elems, k, Contents(g.slots, start, m)) < m && d <= j
  {
    Stops(g, Get(k), k, start);
    StopAtFree(g.elems, Get(k), k, Contents(g.slots, start, j + 1));
    d := Probe(g.elems, k, Contents(g.slots, start, Need(g, Get(k), k, start, 0)));
  }

  /** A lookup that ends before the one slot with its key does not find it. */
  lemma MissApplies(g: Table, home: int -> int, k: int, d: nat, p: int)
    requires WellTabled(g) && Homes(home, |g.slots|) && UniqueKeys(g) && Full(g, p) && k == g.elems[g.slots[p]].key
    requires d == Probe(g.elems, k, Seen(g, home, Get(k))) < |Seen(g, home, Get(k))|
    requires 0 <= At(home(k), d, |g.slots|) < |g.slots| && At(home(k), d, |g.slots|) != p
    ensures Apply(g, home, Get(k)).res == NotFound
  {
    var cs := Seen(g, home, Get(k));
    assert cs[d] == g.slots[At(home(k), d, |g.slots|)] && Matches(g.elems, k, cs[d]);
    assert cs[d] != FREE ==> Full(g, At(home(k), d, |g.slots|));
    ApplyIs(g, home, Get(k), k, cs);
  }

  /** Lookups are right for every key exactly when the table is sound. */
  lemma AnswersIffSound(g: Table, home: int -> int)
    requires WellTabled(g) && Homes(home, |g.slots|) && UniqueKeys(g)
    ensures Answers(g, home) <==> Sound(g, home)
  {
    if Sound(g, home) {
      forall k ensures Apply(g, home, Get(k)).res == if k in Keys(g) then Got(View(g)[k]) else NotFound {
        GetMeaning(g, home, k);
      }
    } else {
      var p :| Full(g, p) && !Reach(g, home, p);
      Lost(g, home, p);
    }
  }
}
