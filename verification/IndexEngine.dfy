/** The index as the rest of the cache sees it: any table operation that has the map meaning. */
module IndexEngine {
  import opened Index
  import opened IndexTable
  import opened IndexMap
  import opened IndexRemove

  type Engine = (Table, Op) -> Applied

  ghost predicate SameKeyed(g: Table, t: Table) {
    && |t.elems| == |g.elems|
    && forall x {:trigger t.elems[x]} :: 0 <= x < |g.elems| ==> t.elems[x].key == g.elems[x].key
  }

  ghost predicate GetMeets(g: Table, k: int, a: Applied) {
    a == Applied(g, if k in Keys(g) then Got(View(g)[k]) else NotFound)
  }

  ghost predicate SetMeets(g: Table, home: int -> int, k: int, v: int, a: Applied) {
    && Sound(a.t, home) && a.t.slots == g.slots && SameKeyed(g, a.t)
    && a.res == (if k in Keys(g) then Ok else Refused)
    && View(a.t) == (if k in Keys(g) then View(g)[k := v] else View(g))
  }

  ghost predicate DuplicateMeets(g: Table, home: int -> int, op: Op, a: Applied)
    requires op.Insert? || op.InsertOrSet?
  {
    && Sound(a.t, home) && a.t.slots == g.slots && SameKeyed(g, a.t)
    && a.res == Refused
    && View(a.t) == if op.Insert? then View(g) else View(g)[op.k := op.v]
  }

  ghost predicate InsertMeets(g: Table, home: int -> int, op: Op, a: Applied)
    requires op.Insert? || op.InsertOrSet?
    requires 0 <= op.e < |g.elems|
  {
    && Sound(a.t, home) && a.t.elems == g.elems[op.e := Elem(op.k, op.v)]
    && a.res == Ok
    && View(a.t) == View(g)[op.k := op.v]
    && forall x {:trigger x in a.t.slots} :: x != FREE ==> (x in a.t.slots <==> x == op.e || x in g.slots)
  }

  ghost predicate RemoveMeets(g: Table, home: int -> int, e: int, a: Applied)
    requires Homes(home, |g.slots|) && 0 <= e < |g.elems|
  {
    && a.res == Ok && a.t.elems == g.elems
    && View(a.t) == View(g) - {g.elems[e].key}
    && (forall x {:trigger x in a.t.slots} :: x != FREE ==> (x in a.t.slots <==> x in g.slots && x != e))
    && (Sound(a.t, home) <==> ShiftIsSafe(g, home, e))
  }

  ghost predicate Meets(g: Table, home: int -> int, op: Op, a: Applied)
    requires Homes(home, |g.slots|)
  {
    match op
    case Get(k) => GetMeets(g, k, a)
    case Set(k, v) => SetMeets(g, home, k, v, a)
    case Remove(e) => 0 <= e < |g.elems| && e in g.slots ==> RemoveMeets(g, home, e, a)
    case _ =>
      0 <= op.e < |g.elems| && op.e !in g.slots ==>
        if op.k in Keys(g) then DuplicateMeets(g, home, op, a) else InsertMeets(g, home, op, a)
  }

  ghost predicate Asked(g: Table, op: Op) { true }

  /** The laws hold of ix; each is used only where `LawfulAt` calls for it. */
  ghost predicate Lawful(ix: Engine, home: int -> int) {
    forall g, op {:trigger Asked(g, op)} :: Asked(g, op) && Sound(g, home) ==> Meets(g, home, op, ix(g, op))
  }

  lemma LawfulAt(ix: Engine, home: int -> int, g: Table, op: Op)
    requires Lawful(ix, home) && Sound(g, home)
    ensures Meets(g, home, op, ix(g, op))
  {
    assert Asked(g, op);
  }

  // ---- the probing index is one ----

  /** The index of the cache with hash function home. */
  function Probing(home: int -> int): Engine {
    (g: Table, op: Op) => Applying(g, home, op)
  }

  function Applying(g: Table, home: int -> int, op: Op): Applied {
    if 0 <= home(KeyOf(g.elems, op)) < |g.slots| then Apply(g, home, op) else Applied(g, Refused)
  }

  lemma SetKeeps(g: Table, home: int -> int, k: int, v: int)
    requires Sound(g, home)
    ensures SameKeyed(g, Apply(g, home, Set(k, v)).t)
  {
    SeenEnds(g, home, Set(k, v));
  }

  lemma DuplicateKeeps(g: Table, home: int -> int, op: Op)
    requires Sound(g, home) && (op.Insert? || op.InsertOrSet?) && op.k in Keys(g)
    ensures SameKeyed(g, Apply(g, home, op).t)
  {
    InsertOld(g, home, op);
  }

  lemma InsertMembers(g: Table, home: int -> int, op: Op, x: int)
    requires Sound(g, home) && (op.Insert? || op.InsertOrSet?)
    requires 0 <= op.e < |g.elems| && op.e !in g.slots && op.k !in Keys(g) && x != FREE
    ensures x in Apply(g, home, op).t.slots <==> x == op.e || x in g.slots
    ensures Apply(g, home, op).t.elems == g.elems[op.e := Elem(op.k, op.v)]
  {
    InsertNew(g, home, op);
    var q := At(home(op.k), Probe(g.elems, op.k, Seen(g, home, op)), |g.slots|);
    PutMembers(g.slots, q, op.e, x);
  }

  lemma InsertingMeets(g: Table, home: int -> int, op: Op)
    requires Sound(g, home) && (op.Insert? || op.InsertOrSet?)
    requires 0 <= op.e < |g.elems| && op.e !in g.slots && op.k !in Keys(g)
    ensures InsertMeets(g, home, op, Apply(g, home, op))
  {
    InsertMeaning(g, home, op);
    var a := Apply(g, home, op);
    InsertMembers(g, home, op, 0);
    forall x | x != FREE ensures x in a.t.slots <==> x == op.e || x in g.slots {
      InsertMembers(g, home, op, x);
    }
  }

  /** Every operation of the probing index has its map meaning on a sound table. */
  lemma ApplyMeets(g: Table, home: int -> int, op: Op)
    requires Sound(g, home)
    ensures Meets(g, home, op, Apply(g, home, op))
  {
    match op {
      case Get(k) => GetMeaning(g, home, k);
      case Set(k, v) =>
        SetMeaning(g, home, k, v);
        SetKeeps(g, home, k, v);
      case Remove(e) =>
        if 0 <= e < |g.elems| && e in g.slots { RemoveMeaning(g, home, e); }
      case _ =>
        if 0 <= op.e < |g.elems| && op.e !in g.slots {
          if op.k in Keys(g) {
            InsertMeaning(g, home, op);
            DuplicateKeeps(g, home, op);
          } else {
            InsertingMeets(g, home, op);
          }
        }
    }
  }

  /** ix is the probing index.  The equation is used only where `Asked` calls for it. */
  ghost predicate Exact(ix: Engine, home: int -> int) {
    forall g, op {:trigger Asked(g, op)} :: Asked(g, op) ==> ix(g, op) == Applying(g, home, op)
  }

  lemma ProbingExact(home: int -> int)
    ensures Exact(Probing(home), home)
  {}

  lemma ExactAt(ix: Engine, home: int -> int, g: Table, op: Op)
    requires Exact(ix, home) && Homes(home, |g.slots|)
    ensures ix(g, op) == Apply(g, home, op)
  {
    assert Asked(g, op);
  }

  lemma ExactLawful(ix: Engine, home: int -> int)
    requires Exact(ix, home)
    ensures Lawful(ix, home)
  {
    forall g, op | Sound(g, home) ensures Meets(g, home, op, ix(g, op)) {
      ExactAt(ix, home, g, op);
      ApplyMeets(g, home, op);
    }
  }
}
