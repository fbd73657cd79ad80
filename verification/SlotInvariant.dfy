/** The invariant behind the slot locks: who holds which slot, and what the index really contains. */
module SlotInvariant {
  import opened Index
  import opened IndexTable
  import opened IndexMap
  import opened SlotLocks

  /** The thread at pc has locked slot p. */
  predicate Holds(pc: PC, n: int, p: int) {
    match pc
    case Look(c, cs) => Off(c.start, p, n) < |cs|
    case Take(c, cs, _) => Off(c.start, p, n) < |cs|
    case Write(c, o) => Off(c.start, p, n) < |o.cs|
    case Unlock(c, o, i) => i <= Off(c.start, p, n) < |o.cs|
    case _ => false
  }

  /** The thread has decided to replace element x but not stored it yet. */
  predicate Writes(pc: PC, x: int) { pc.Write? && pc.o.x == x }

  /** Element x is in the index although thread hand[x] has it. */
  predicate Engaged(pc: PC, x: int) {
    match pc
    case Look(c, _) => c.op == Remove(x)
    case Take(c, _, _) => c.op == Remove(x)
    case Write(c, o) => IsInsert(c.op) && c.op.e == x && o.res == Ok
    case Unlock(c, o, _) => IsInsert(c.op) && c.op.e == x && o.res == Ok
    case Return(c, res) => IsInsert(c.op) && c.op.e == x && res == Ok
    case Idle => false
  }

  ghost predicate SlotOK(s: State, g: Table, owner: seq<int>, p: int)
    requires |s.slots| == |g.slots| == |owner| && 0 <= p < |s.slots|
  {
    && NOBODY <= owner[p] < |s.pcs|
    && (owner[p] == NOBODY ==> s.slots[p] == g.slots[p])
    && (owner[p] != NOBODY ==> s.slots[p] == LOCK)
  }

  /** Only a writer's element differs from what the index contains, and a hit keeps the key. */
  ghost predicate Current(s: State, g: Table, x: int)
    requires |s.elems| == |g.elems| && 0 <= x < |s.elems|
  {
    s.elems[x] == g.elems[x]
    || exists u :: 0 <= u < |s.pcs| && Writes(s.pcs[u], x)
                   && (s.elems[x].key == g.elems[x].key || (IsInsert(s.pcs[u].c.op) && s.pcs[u].c.op.e == x))
  }

  ghost predicate ElemOK(s: State, g: Table, x: int)
    requires |s.elems| == |g.elems| == |s.hand| && 0 <= x < |s.elems|
  {
    && Current(s, g, x)
    && NOBODY <= s.hand[x] < |s.pcs|
    && (x in g.slots <==> s.hand[x] == NOBODY || Engaged(s.pcs[s.hand[x]], x))
  }

  /** The call's key is the right one, and its element is the thread's. */
  ghost predicate CallOK(home: int -> int, s: State, t: int, c: Call)
    requires |s.elems| == |s.hand|
  {
    && c.start == home(c.key) && 0 <= c.start < |s.slots|
    && (IsInsert(c.op) || c.op.Remove? ==> 0 <= c.op.e < |s.elems| && s.hand[c.op.e] == t)
    && (!c.op.Remove? ==> c.key == c.op.k)
  }

  /** Still locking: cs is what the index contains there, and nothing seen so far ends the probe. */
  ghost predicate Locking(g: Table, c: Call, cs: seq<int>) {
    && 0 <= c.start < |g.slots| && |cs| <= |g.elems| < |g.slots|
    && c.key == KeyOf(g.elems, c.op)
    && cs == Contents(g.slots, c.start, |cs|)
    && (forall j {:trigger Contents(g.slots, c.start, j)} :: 0 <= j <= |cs| ==>
          !Stop(g.elems, c.op, c.key, Contents(g.slots, c.start, j)))
  }

  /** Done locking: what it still has to store is what the index contains there. */
  ghost predicate Storing(g: Table, c: Call, o: Outcome, i: nat) {
    && 0 <= c.start < |g.slots| && i < |o.cs| <= |g.slots|
    && (forall j {:trigger o.cs[j]} :: i <= j < |o.cs| ==> o.cs[j] == g.slots[At(c.start, j, |g.slots|)])
  }

  ghost predicate Writing(g: Table, o: Outcome) {
    0 <= o.x < |g.elems| && g.elems[o.x] == o.elem && o.x in o.cs
  }

  ghost predicate ThreadOK(home: int -> int, s: State, g: Table, t: int)
    requires |s.elems| == |s.hand| && 0 <= t < |s.pcs|
  {
    match s.pcs[t]
    case Idle => true
    case Look(c, cs) => CallOK(home, s, t, c) && Locking(g, c, cs)
    case Take(c, cs, seen) => CallOK(home, s, t, c) && Locking(g, c, cs) && seen != LOCK
    case Write(c, o) => CallOK(home, s, t, c) && Storing(g, c, o, 0) && Writing(g, o)
    case Unlock(c, o, i) => CallOK(home, s, t, c) && Storing(g, c, o, i)
    case Return(c, _) => CallOK(home, s, t, c)
  }

  ghost predicate Fitting(home: int -> int, s: State, g: Table, owner: seq<int>) {
    && Sized(home, s) && |s.slots| == |g.slots| == |owner| && |s.elems| == |g.elems|
    && Sound(g, home)
  }

  ghost predicate Owners(s: State, owner: seq<int>, t: int)
    requires 0 <= t < |s.pcs|
  {
    forall p {:trigger Holds(s.pcs[t], |owner|, p)} :: 0 <= p < |owner| ==>
      (owner[p] == t <==> Holds(s.pcs[t], |owner|, p))
  }

  ghost predicate Inv(home: int -> int, s: State, g: Table, owner: seq<int>) {
    && Fitting(home, s, g, owner)
    && (forall p {:trigger SlotOK(s, g, owner, p)} :: 0 <= p < |s.slots| ==> SlotOK(s, g, owner, p))
    && (forall t {:trigger Owners(s, owner, t)} :: 0 <= t < |s.pcs| ==> Owners(s, owner, t))
    && (forall x {:trigger ElemOK(s, g, x)} :: 0 <= x < |s.elems| ==> ElemOK(s, g, x))
    && (forall t {:trigger ThreadOK(home, s, g, t)} :: 0 <= t < |s.pcs| ==> ThreadOK(home, s, g, t))
  }

  // ---- what the last lock tells ----

  /** A slot that nobody has locked shows what the index contains. */
  lemma Unlocked(home: int -> int, s: State, g: Table, owner: seq<int>, p: int)
    requires Inv(home, s, g, owner) && 0 <= p < |s.slots| && s.slots[p] != LOCK
    ensures owner[p] == NOBODY && s.slots[p] == g.slots[p]
  {
    assert SlotOK(s, g, owner, p);
  }

  /** Nobody is writing the element of a slot held by t or by nobody. */
  lemma Readable(home: int -> int, s: State, g: Table, owner: seq<int>, t: int, p: int)
    requires Inv(home, s, g, owner) && 0 <= p < |s.slots| && owner[p] in {t, NOBODY} && 0 <= g.slots[p] < |g.elems|
    requires 0 <= t < |s.pcs| && !s.pcs[t].Write?
    ensures s.elems[g.slots[p]] == g.elems[g.slots[p]]
  {
    var x := g.slots[p];
    assert ElemOK(s, g, x);
    if s.elems[x] != g.elems[x] {
      var u :| 0 <= u < |s.pcs| && Writes(s.pcs[u], x);
      assert ThreadOK(home, s, g, u) && Owners(s, owner, u);
      var o, c := s.pcs[u].o, s.pcs[u].c;
      var j :| 0 <= j < |o.cs| && o.cs[j] == x;
      Around(c.start, j, |g.slots|);
      var q := At(c.start, j, |g.slots|);
      assert Holds(s.pcs[u], |owner|, q);
      if p != q { SlotsApart(g.slots, p, q); }
    }
  }

  /** Locking one more slot: everything read so far is what the index contains. */
  ghost predicate Taking(home: int -> int, s: State, g: Table, owner: seq<int>, t: int, c: Call, cs: seq<int>,
                         seen: int) {
    && Inv(home, s, g, owner) && 0 <= t < |s.pcs| && !s.ended
    && s.pcs[t] == Take(c, cs, seen)
    && 0 <= At(c.start, |cs|, |s.slots|) < |s.slots| && s.slots[At(c.start, |cs|, |s.slots|)] == seen
  }

  lemma TakeReads(home: int -> int, s: State, g: Table, owner: seq<int>, t: int, c: Call, cs: seq<int>, seen: int)
    requires Taking(home, s, g, owner, t, c, cs, seen)
    ensures |cs| < |g.slots| && 0 <= c.start < |g.slots|
    ensures owner[At(c.start, |cs|, |s.slots|)] == NOBODY
    ensures cs + [seen] == Contents(g.slots, c.start, |cs| + 1)
    ensures Agree(s.elems, g.elems, cs + [seen])
  {
    var n := |g.slots|;
    assert ThreadOK(home, s, g, t) && Owners(s, owner, t);
    Unlocked(home, s, g, owner, At(c.start, |cs|, n));
    var all := cs + [seen];
    forall i | 0 <= i < |all| ensures all[i] == g.slots[At(c.start, i, n)]
                              && (0 <= all[i] < |g.elems| ==> s.elems[all[i]] == g.elems[all[i]])
    {
      Around(c.start, i, n);
      var p := At(c.start, i, n);
      assert Holds(s.pcs[t], |owner|, p) <==> i < |cs|;
      if 0 <= all[i] < |g.elems| { Readable(home, s, g, owner, t, p); }
    }
  }

  lemma NeedIs(g: Table, c: Call, cs: seq<int>)
    requires Locking(g, c, cs) && Stop(g.elems, c.op, c.key, Contents(g.slots, c.start, |cs| + 1))
    ensures Need(g, c.op, c.key, c.start, 0) == |cs| + 1
  {}

  /** If that ends the probe, it ends where the serial operation ends. */
  lemma TakeApplies(home: int -> int, s: State, g: Table, owner: seq<int>, t: int, c: Call, cs: seq<int>, seen: int)
    requires Taking(home, s, g, owner, t, c, cs, seen) && Stop(s.elems, c.op, c.key, cs + [seen])
    ensures |cs| < |g.slots| && 0 <= c.start < |g.slots| && Stop(g.elems, c.op, c.key, cs + [seen])
    ensures var o := Finish(s.elems, home, c.op, c.key, c.start, |s.slots|, cs + [seen]);
            && o == Finish(g.elems, home, c.op, c.key, c.start, |g.slots|, cs + [seen])
            && Apply(g, home, c.op) == Stored(g, c.start, o)
  {
    assert ThreadOK(home, s, g, t);
    TakeReads(home, s, g, owner, t, c, cs, seen);
    FinishSame(s.elems, g.elems, home, c.op, c.key, c.start, |s.slots|, cs + [seen]);
    NeedIs(g, c, cs);
    ApplyIs(g, home, c.op, c.key, cs + [seen]);
  }
}
