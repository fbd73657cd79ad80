/** Every step of every thread preserves the invariant of the slot locks. */
module SlotSteps {
  import opened Index
  import opened IndexTable
  import opened IndexMap
  import opened IndexRemove
  import opened SlotLocks
  import opened SlotInvariant
  import opened Pigeonhole

  /** The other threads keep their program counters, and the table they see keeps its parts. */
  ghost predicate OthersKeep(home: int -> int, s: State, g: Table, owner: seq<int>, s': State, g': Table,
                             owner': seq<int>, t: int) {
    && Inv(home, s, g, owner) && 0 <= t < |s.pcs| && Fitting(home, s', g', owner')
    && |s'.slots| == |s.slots| && |s'.elems| == |s.elems| && |s'.pcs| == |s.pcs|
    && (forall u {:trigger s'.pcs[u]} :: 0 <= u < |s.pcs| && u != t ==> s'.pcs[u] == s.pcs[u])
    // slots, hands and keys of other threads stay
    && (forall p {:trigger g'.slots[p]} {:trigger g.slots[p]} :: 0 <= p < |s.slots| && owner'[p] != t ==>
        g'.slots[p] == g.slots[p])
    && (forall p {:trigger owner'[p]} {:trigger owner[p]} :: 0 <= p < |s.slots| && owner'[p] != owner[p] ==>
        owner[p] in {t, NOBODY} && owner'[p] in {t, NOBODY})
    && (forall x {:trigger s'.hand[x]} :: 0 <= x < |s.hand| && s'.hand[x] != s.hand[x] ==>
        s.hand[x] in {t, NOBODY} && s'.hand[x] in {t, NOBODY})
    && (forall x {:trigger g'.elems[x]} :: 0 <= x < |s.elems| && (s.hand[x] != t || x in g.slots) ==>
          g'.elems[x].key == g.elems[x].key)
  }

  lemma OwnersKept(home: int -> int, s: State, g: Table, owner: seq<int>, s': State, g': Table, owner': seq<int>,
                   t: int, u: int)
    requires OthersKeep(home, s, g, owner, s', g', owner', t) && 0 <= u < |s.pcs| && u != t
    ensures Owners(s', owner', u)
  {
    assert Owners(s, owner, u);
    forall p | 0 <= p < |owner'| ensures owner'[p] == u <==> Holds(s'.pcs[u], |owner'|, p) {
      assert owner[p] == u <==> Holds(s.pcs[u], |owner|, p);
    }
  }

  lemma ContentsKept(home: int -> int, s: State, g: Table, owner: seq<int>, s': State, g': Table, owner': seq<int>,
                     t: int, u: int, c: Call, j: nat)
    requires OthersKeep(home, s, g, owner, s', g', owner', t) && 0 <= u < |s.pcs| && u != t
    requires 0 <= c.start < |g.slots| && j <= |g.slots|
    requires forall p {:trigger owner[p]} :: 0 <= p < |owner| && Off(c.start, p, |owner|) < j ==> owner[p] == u
    ensures Contents(g'.slots, c.start, j) == Contents(g.slots, c.start, j)
  {
    forall i | 0 <= i < j ensures g'.slots[At(c.start, i, |g.slots|)] == g.slots[At(c.start, i, |g.slots|)] {
      Around(c.start, i, |g.slots|);
      assert owner[At(c.start, i, |g.slots|)] == u;
    }
  }

  lemma StopKept(home: int -> int, s: State, g: Table, owner: seq<int>, s': State, g': Table, owner': seq<int>, t: int,
                 op: Op, k: int, start: int, j: nat)
    requires OthersKeep(home, s, g, owner, s', g', owner', t)
    requires 0 <= start < |g.slots| && j <= |g.slots| && Contents(g'.slots, start, j) == Contents(g.slots, start, j)
    ensures Stop(g'.elems, op, k, Contents(g'.slots, start, j)) == Stop(g.elems, op, k, Contents(g.slots, start, j))
  {
    var cs := Contents(g.slots, start, j);
    forall i | 0 <= i < |cs| && 0 <= cs[i] < |g.elems| ensures g.elems[cs[i]].key == g'.elems[cs[i]].key {
      Around(start, i, |g.slots|);
      assert g.slots[At(start, i, |g.slots|)] == cs[i];
    }
    ProbeSame(g.elems, g'.elems, k, cs);
  }

  lemma LockingKept(home: int -> int, s: State, g: Table, owner: seq<int>, s': State, g': Table, owner': seq<int>,
                    t: int, u: int, c: Call, cs: seq<int>)
    requires OthersKeep(home, s, g, owner, s', g', owner', t) && 0 <= u < |s.pcs| && u != t
    requires CallOK(home, s, u, c) && Locking(g, c, cs)
    requires forall p {:trigger owner[p]} :: 0 <= p < |owner| && Off(c.start, p, |owner|) < |cs| ==> owner[p] == u
    ensures Locking(g', c, cs)
  {
    forall j | 0 <= j <= |cs|
      ensures Contents(g'.slots, c.start, j) == Contents(g.slots, c.start, j)
      ensures !Stop(g'.elems, c.op, c.key, Contents(g'.slots, c.start, j))
    {
      ContentsKept(home, s, g, owner, s', g', owner', t, u, c, j);
      StopKept(home, s, g, owner, s', g', owner', t, c.op, c.key, c.start, j);
    }
  }

  /** A step of thread t leaves what another thread relies on alone. */
  lemma ThreadKept(home: int -> int, s: State, g: Table, owner: seq<int>, s': State, g': Table, owner': seq<int>,
                   t: int, u: int)
    requires OthersKeep(home, s, g, owner, s', g', owner', t) && 0 <= u < |s.pcs| && u != t
    requires s.pcs[u].Write? && 0 <= s.pcs[u].o.x < |g.elems| ==> g'.elems[s.pcs[u].o.x] == g.elems[s.pcs[u].o.x]
    ensures ThreadOK(home, s', g', u)
  {
    assert ThreadOK(home, s, g, u) && Owners(s, owner, u);
    assert s'.pcs[u] == s.pcs[u];
    forall p | 0 <= p < |owner| && Holds(s.pcs[u], |owner|, p) ensures owner[p] == u && g'.slots[p] == g.slots[p] {}
    match s.pcs[u]
    case Idle =>
    case Look(c, cs) =>
      forall p | 0 <= p < |owner| && Off(c.start, p, |owner|) < |cs| ensures owner[p] == u {
        assert Holds(s.pcs[u], |owner|, p);
      }
      LockingKept(home, s, g, owner, s', g', owner', t, u, c, cs);
    case Take(c, cs, _) =>
      forall p | 0 <= p < |owner| && Off(c.start, p, |owner|) < |cs| ensures owner[p] == u {
        assert Holds(s.pcs[u], |owner|, p);
      }
      LockingKept(home, s, g, owner, s', g', owner', t, u, c, cs);
    case Write(c, o) =>
      StoringKept(home, s, g, owner, s', g', owner', t, u, c, o, 0);
    case Unlock(c, o, i) =>
      StoringKept(home, s, g, owner, s', g', owner', t, u, c, o, i);
    case Return(c, _) =>
  }

  lemma StoringKept(home: int -> int, s: State, g: Table, owner: seq<int>, s': State, g': Table, owner': seq<int>,
                    t: int, u: int, c: Call, o: Outcome, i: nat)
    requires OthersKeep(home, s, g, owner, s', g', owner', t) && 0 <= u < |s.pcs| && u != t
    requires s.pcs[u] == Unlock(c, o, i) || (s.pcs[u] == Write(c, o) && i == 0)
    requires Storing(g, c, o, i)
    ensures Storing(g', c, o, i)
  {
    assert Owners(s, owner, u);
    forall j | i <= j < |o.cs| ensures o.cs[j] == g'.slots[At(c.start, j, |g'.slots|)] {
      Around(c.start, j, |g.slots|);
      assert Holds(s.pcs[u], |owner|, At(c.start, j, |g.slots|));
      assert o.cs[j] == g.slots[At(c.start, j, |g.slots|)];
    }
  }

  /** Enough to re-establish the invariant after a step of thread t. */
  lemma Settle(home: int -> int, s: State, g: Table, owner: seq<int>, s': State, g': Table, owner': seq<int>, t: int)
    requires OthersKeep(home, s, g, owner, s', g', owner', t)
    requires forall u {:trigger s.pcs[u]} ::
               0 <= u < |s.pcs| && u != t && s.pcs[u].Write? && 0 <= s.pcs[u].o.x < |g.elems| ==>
               g'.elems[s.pcs[u].o.x] == g.elems[s.pcs[u].o.x]
    requires forall p {:trigger SlotOK(s', g', owner', p)} :: 0 <= p < |s'.slots| ==> SlotOK(s', g', owner', p)
    requires forall x {:trigger ElemOK(s', g', x)} :: 0 <= x < |s'.elems| ==> ElemOK(s', g', x)
    requires Owners(s', owner', t) && ThreadOK(home, s', g', t)
    ensures Inv(home, s', g', owner')
  {
    forall u | 0 <= u < |s'.pcs| ensures Owners(s', owner', u) && ThreadOK(home, s', g', u) {
      if u != t {
        assert ThreadOK(home, s, g, u);
        OwnersKept(home, s, g, owner, s', g', owner', t, u);
        ThreadKept(home, s, g, owner, s', g', owner', t, u);
      }
    }
  }

  // ---- calls, loads and failed swaps ----

  lemma SameSlots(s: State, s': State, g: Table, owner: seq<int>)
    requires |s.slots| == |g.slots| == |owner| && s'.slots == s.slots && |s'.pcs| == |s.pcs|
    requires forall p {:trigger SlotOK(s, g, owner, p)} :: 0 <= p < |s.slots| ==> SlotOK(s, g, owner, p)
    ensures forall p {:trigger SlotOK(s', g, owner, p)} :: 0 <= p < |s.slots| ==> SlotOK(s', g, owner, p)
  {
    forall p | 0 <= p < |s.slots| ensures SlotOK(s', g, owner, p) { assert SlotOK(s, g, owner, p); }
  }

  /** A program counter that writes and engages no more than before. */
  lemma SameElems(home: int -> int, s: State, s': State, g: Table, owner: seq<int>, t: int, x: int)
    requires Inv(home, s, g, owner) && 0 <= t < |s.pcs| && 0 <= x < |s.elems|
    requires s'.elems == s.elems && s'.hand == s.hand && |s'.pcs| == |s.pcs|
    requires forall u {:trigger s'.pcs[u]} :: 0 <= u < |s.pcs| && u != t ==> s'.pcs[u] == s.pcs[u]
    requires !s.pcs[t].Write? && !s'.pcs[t].Write?
    requires Engaged(s.pcs[t], x) == Engaged(s'.pcs[t], x)
    ensures ElemOK(s', g, x)
  {
    assert ElemOK(s, g, x);
    if s.elems[x] != g.elems[x] {
      var u :| 0 <= u < |s.pcs| && Writes(s.pcs[u], x)
               && (s.elems[x].key == g.elems[x].key || (IsInsert(s.pcs[u].c.op) && s.pcs[u].c.op.e == x));
      assert s'.pcs[u] == s.pcs[u];
    }
  }

  lemma BeginElem(home: int -> int, s: State, g: Table, owner: seq<int>, t: int, op: Op, x: int)
    requires Inv(home, s, g, owner) && 0 <= t < |s.pcs| && s.pcs[t].Idle? && CanBegin(s, t, op) && 0 <= x < |s.elems|
    ensures ElemOK(Begins(home, s, t, op), g, x)
  {
    assert ElemOK(s, g, x);
    var s' := Begins(home, s, t, op);
    if s.elems[x] != g.elems[x] {
      var u :| 0 <= u < |s.pcs| && Writes(s.pcs[u], x)
               && (s.elems[x].key == g.elems[x].key || (IsInsert(s.pcs[u].c.op) && s.pcs[u].c.op.e == x));
      assert s'.pcs[u] == s.pcs[u];
    }
  }

  /** The key of an element nobody has in hand is the one the index contains. */
  lemma UnheldKey(home: int -> int, s: State, g: Table, owner: seq<int>, x: int)
    requires Inv(home, s, g, owner) && 0 <= x < |s.elems| && s.hand[x] == NOBODY
    ensures s.elems[x].key == g.elems[x].key
  {
    assert ElemOK(s, g, x);
    if s.elems[x] != g.elems[x] {
      var u :| 0 <= u < |s.pcs| && Writes(s.pcs[u], x)
               && (s.elems[x].key == g.elems[x].key || (IsInsert(s.pcs[u].c.op) && s.pcs[u].c.op.e == x));
      assert ThreadOK(home, s, g, u);
    }
  }

  lemma BeginStep(home: int -> int, s: State, g: Table, owner: seq<int>, t: int, op: Op)
    requires Inv(home, s, g, owner) && 0 <= t < |s.pcs| && s.pcs[t].Idle?
    ensures Inv(home, Begins(home, s, t, op), g, owner)
  {
    if CanBegin(s, t, op) {
      var s' := Begins(home, s, t, op);
      SameSlots(s, s', g, owner);
      forall x | 0 <= x < |s.elems| ensures ElemOK(s', g, x) { BeginElem(home, s, g, owner, t, op, x); }
      assert Owners(s, owner, t);
      forall p | 0 <= p < |owner| ensures owner[p] == t <==> Holds(s'.pcs[t], |owner|, p) {
        assert owner[p] == t <==> Holds(s.pcs[t], |owner|, p);
      }
      if op.Remove? { UnheldKey(home, s, g, owner, op.e); }
      Settle(home, s, g, owner, s', g, owner, t);
    }
  }

  /** A load, or a swap that fails: the call and what it has locked stay. */
  lemma RetryStep(home: int -> int, s: State, g: Table, owner: seq<int>, t: int, c: Call, cs: seq<int>, pc: PC)
    requires Inv(home, s, g, owner) && 0 <= t < |s.pcs|
    requires s.pcs[t] == Look(c, cs) || (s.pcs[t].Take? && s.pcs[t].c == c && s.pcs[t].cs == cs)
    requires pc == Look(c, cs) || (pc.Take? && pc.c == c && pc.cs == cs && pc.seen != LOCK)
    ensures Inv(home, Goto(s, t, pc), g, owner)
  {
    var s' := Goto(s, t, pc);
    assert ThreadOK(home, s, g, t) && Owners(s, owner, t);
    SameSlots(s, s', g, owner);
    forall x | 0 <= x < |s.elems| ensures ElemOK(s', g, x) { SameElems(home, s, s', g, owner, t, x); }
    forall p | 0 <= p < |owner| ensures owner[p] == t <==> Holds(pc, |owner|, p) {
      assert owner[p] == t <==> Holds(s.pcs[t], |owner|, p);
    }
    Settle(home, s, g, owner, s', g, owner, t);
  }

  // ---- one more lock ----

  /** Locking slot p for thread t. */
  lemma LockSlot(s: State, s': State, g: Table, owner: seq<int>, t: int, p: int)
    requires |s.slots| == |g.slots| == |owner| && 0 <= p < |s.slots| && 0 <= t < |s.pcs| == |s'.pcs|
    requires s'.slots == s.slots[p := LOCK]
    requires forall q {:trigger SlotOK(s, g, owner, q)} :: 0 <= q < |s.slots| ==> SlotOK(s, g, owner, q)
    ensures forall q {:trigger SlotOK(s', g, owner[p := t], q)} :: 0 <= q < |s.slots| ==>
              SlotOK(s', g, owner[p := t], q)
  {
    var owner' := owner[p := t];
    forall q | 0 <= q < |s.slots| ensures SlotOK(s', g, owner', q) { assert SlotOK(s, g, owner, q); }
  }

  lemma LockOwners(home: int -> int, s: State, g: Table, owner: seq<int>, t: int, c: Call, cs: seq<int>, seen: int,
                   pc: PC)
    requires Taking(home, s, g, owner, t, c, cs, seen)
    requires pc == Look(c, cs + [seen]) || (pc.Write? && pc.c == c && |pc.o.cs| == |cs| + 1)
             || (pc.Unlock? && pc.c == c && |pc.o.cs| == |cs| + 1 && pc.i == 0)
    ensures 0 <= At(c.start, |cs|, |owner|) < |owner|
    ensures var owner' := owner[At(c.start, |cs|, |owner|) := t];
            forall q {:trigger Holds(pc, |owner'|, q)} :: 0 <= q < |owner'| ==>
              (owner'[q] == t <==> Holds(pc, |owner'|, q))
  {
    TakeReads(home, s, g, owner, t, c, cs, seen);
    var n := |owner|;
    var p := At(c.start, |cs|, n);
    assert Owners(s, owner, t);
    var owner' := owner[p := t];
    forall q | 0 <= q < n ensures owner'[q] == t <==> Holds(pc, n, q) {
      assert owner[q] == t <==> Holds(s.pcs[t], n, q);
      Back(c.start, q, n);
      Around(c.start, |cs|, n);
    }
  }

  /** A thread that must go on has seen only occupied slots, so fewer than there are elements. */
  lemma NotAll(home: int -> int, g: Table, c: Call, m: nat)
    requires Sound(g, home) && 0 <= c.start < |g.slots| && m <= |g.slots|
    requires forall j {:trigger Contents(g.slots, c.start, j)} :: 0 <= j <= m ==>
               !Stop(g.elems, c.op, c.key, Contents(g.slots, c.start, j))
    ensures m <= |g.elems|
  {
    var i := FreeSlot(g, c.start);
    if i < m {
      StopAtFree(g.elems, c.op, c.key, Contents(g.slots, c.start, i + 1));
    }
  }

  /** Seeing one more slot that does not end the probe. */
  lemma LockingOn(home: int -> int, g: Table, c: Call, cs: seq<int>, seen: int)
    requires Sound(g, home) && Locking(g, c, cs) && |cs| < |g.slots|
    requires cs + [seen] == Contents(g.slots, c.start, |cs| + 1) && !Stop(g.elems, c.op, c.key, cs + [seen])
    ensures Locking(g, c, cs + [seen])
  {
    forall j | 0 <= j <= |cs| + 1 ensures !Stop(g.elems, c.op, c.key, Contents(g.slots, c.start, j)) {}
    NotAll(home, g, c, |cs| + 1);
  }

  lemma LockMore(home: int -> int, s: State, g: Table, owner: seq<int>, t: int, c: Call, cs: seq<int>, seen: int)
    requires Taking(home, s, g, owner, t, c, cs, seen) && !Stop(s.elems, c.op, c.key, cs + [seen])
    ensures 0 <= At(c.start, |cs|, |owner|) < |owner| && Locking(g, c, cs + [seen])
  {
    assert ThreadOK(home, s, g, t);
    TakeReads(home, s, g, owner, t, c, cs, seen);
    assert SameKeys(s.elems, g.elems, cs + [seen]);
    ProbeSame(s.elems, g.elems, c.key, cs + [seen]);
    LockingOn(home, g, c, cs, seen);
  }

  lemma TakeMoreStep(home: int -> int, s: State, g: Table, owner: seq<int>, t: int, c: Call, cs: seq<int>, seen: int)
    requires Taking(home, s, g, owner, t, c, cs, seen) && !Stop(s.elems, c.op, c.key, cs + [seen])
    ensures 0 <= At(c.start, |cs|, |owner|) < |owner|
    ensures var p := At(c.start, |cs|, |owner|);
            Inv(home, Goto(s.(slots := s.slots[p := LOCK]), t, Look(c, cs + [seen])), g, owner[p := t])
  {
    var p := At(c.start, |cs|, |owner|);
    var s', owner' := Goto(s.(slots := s.slots[p := LOCK]), t, Look(c, cs + [seen])), owner[p := t];
    assert ThreadOK(home, s, g, t);
    TakeReads(home, s, g, owner, t, c, cs, seen);
    LockMore(home, s, g, owner, t, c, cs, seen);
    LockSlot(s, s', g, owner, t, p);
    LockOwners(home, s, g, owner, t, c, cs, seen, Look(c, cs + [seen]));
    forall x | 0 <= x < |s.elems| ensures ElemOK(s', g, x) { SameElems(home, s, s', g, owner, t, x); }
    Settle(home, s, g, owner, s', g, owner', t);
  }

  // ---- the last lock ----

  /** The operation's element is free to be used as the operation uses it. */
  ghost predicate Fair(g: Table, home: int -> int, op: Op) {
    && Sound(g, home)
    && (IsInsert(op) ==> 0 <= op.e < |g.elems| && op.e !in g.slots)
    && (op.Remove? ==> 0 <= op.e < |g.elems| && op.e in g.slots && ShiftIsSafe(g, home, op.e))
  }

  lemma StaysSound(g: Table, home: int -> int, op: Op)
    requires Fair(g, home, op)
    ensures Sound(Apply(g, home, op).t, home) && (op.Remove? ==> Apply(g, home, op).res == Ok)
  {
    match op
    case Get(k) => GetMeaning(g, home, k);
    case Set(k, v) => SetMeaning(g, home, k, v);
    case Remove(e) => RemoveMeaning(g, home, e);
    case _ => InsertMeaning(g, home, op);
  }

  lemma Membership(g: Table, home: int -> int, op: Op, x: int)
    requires Fair(g, home, op) && 0 <= x < |g.elems|
    ensures var r := Apply(g, home, op);
            x in r.t.slots <==> (x in g.slots && op != Remove(x)) || (IsInsert(op) && r.res == Ok && x == op.e)
  {
    match op
    case Get(k) => GetMeaning(g, home, k);
    case Set(k, v) => SetMeaning(g, home, k, v);
    case Remove(e) => RemoveMeaning(g, home, e);
    case _ =>
      InsertMeaning(g, home, op);
      if op.k !in Keys(g) {
        var r := Apply(g, home, op).t;
        var q :| 0 <= q < |g.slots| && g.slots[q] == FREE && r.slots == g.slots[q := op.e];
        PutMembers(g.slots, q, op.e, x);
      }
  }

  /** Which element an outcome replaces: none, a new one, or one it found. */
  ghost predicate Replaces(g: Table, op: Op, cs: seq<int>, o: Outcome) {
    && |o.cs| == |cs|
    && (o.x == NONE
        || (IsInsert(op) && o.res == Ok && o.x == op.e && o.x in o.cs)
        || (!(IsInsert(op) && o.res == Ok) && o.cs == cs && o.x in cs && 0 <= o.x < |g.elems|
            && o.elem.key == g.elems[o.x].key))
  }

  lemma FinishReplaces(g: Table, home: int -> int, op: Op, k: int, start: int, cs: seq<int>)
    requires Probe(g.elems, k, cs) < |cs|
    ensures Replaces(g, op, cs, Finish(g.elems, home, op, k, start, |g.slots|, cs))
  {
    var d := Probe(g.elems, k, cs);
    if IsInsert(op) && cs[d] == FREE { assert cs[d := op.e][d] == op.e; }
  }

  /** Thread t's last lock: the index changes as the serial operation changes it. */
  ghost predicate Deciding(home: int -> int, s: State, g: Table, owner: seq<int>, t: int, c: Call, cs: seq<int>,
                           seen: int, o: Outcome, g': Table) {
    && Taking(home, s, g, owner, t, c, cs, seen)
    && c.key == KeyOf(g.elems, c.op) && c.start == home(c.key) && CallOK(home, s, t, c)
    && |cs| < |g.slots| && 0 <= c.start < |g.slots|
    && cs + [seen] == Contents(g.slots, c.start, |cs| + 1)
    && Replaces(g, c.op, cs + [seen], o)
    && Sound(g', home) && g' == Stored(g, c.start, o).t
    && (forall x {:trigger Joins(g, g', c.op, o.res, x)} :: 0 <= x < |g.elems| ==> Joins(g, g', c.op, o.res, x))
    && (IsInsert(c.op) ==> c.op.e !in g.slots)
  }

  /** Element x is indexed afterwards as the operation says. */
  ghost predicate Joins(g: Table, g': Table, op: Op, res: Res, x: int) {
    x in g'.slots <==> (x in g.slots && op != Remove(x)) || (IsInsert(op) && res == Ok && x == op.e)
  }

  lemma Decide(home: int -> int, s: State, g: Table, owner: seq<int>, t: int, c: Call, cs: seq<int>, seen: int)
    returns (o: Outcome, g': Table)
    requires Taking(home, s, g, owner, t, c, cs, seen) && Stop(s.elems, c.op, c.key, cs + [seen])
    requires c.op.Remove? && 0 <= c.op.e < |g.elems| ==> ShiftIsSafe(g, home, c.op.e)
    ensures Deciding(home, s, g, owner, t, c, cs, seen, o, g')
    ensures o == Finish(s.elems, home, c.op, c.key, c.start, |s.slots|, cs + [seen])
    ensures g' == Apply(g, home, c.op).t && o.res == Apply(g, home, c.op).res && Sound(g', home)
    ensures c.op.Remove? ==> o.res == Ok
  {
    assert ThreadOK(home, s, g, t);
    TakeReads(home, s, g, owner, t, c, cs, seen);
    TakeApplies(home, s, g, owner, t, c, cs, seen);
    o := Finish(s.elems, home, c.op, c.key, c.start, |s.slots|, cs + [seen]);
    g' := Stored(g, c.start, o).t;
    FinishReplaces(g, home, c.op, c.key, c.start, cs + [seen]);
    if IsInsert(c.op) || c.op.Remove? { assert ElemOK(s, g, c.op.e); }
    forall x | 0 <= x < |g.elems| ensures Joins(g, g', c.op, o.res, x) { Membership(g, home, c.op, x); }
    StaysSound(g, home, c.op);
  }

  lemma DecidedElem(home: int -> int, s: State, g: Table, owner: seq<int>, t: int, c: Call, cs: seq<int>, seen: int,
                    o: Outcome, g': Table, s': State, x: int)
    requires Deciding(home, s, g, owner, t, c, cs, seen, o, g') && 0 <= x < |s.elems|
    requires s'.elems == s.elems && s'.hand == s.hand && |s'.pcs| == |s.pcs|
    requires forall u {:trigger s'.pcs[u]} :: 0 <= u < |s.pcs| && u != t ==> s'.pcs[u] == s.pcs[u]
    requires s'.pcs[t] == if o.x == NONE then Unlock(c, o, 0) else Write(c, o)
    ensures ElemOK(s', g', x)
  {
    assert ElemOK(s, g, x) && Joins(g, g', c.op, o.res, x);
    if x == o.x {
      TakeReads(home, s, g, owner, t, c, cs, seen);
      assert Writes(s'.pcs[t], x);
      if !(IsInsert(c.op) && o.res == Ok) {
        var all := cs + [seen];
        var i :| 0 <= i < |all| && all[i] == x;
        assert s.elems[all[i]] == g.elems[all[i]];
      }
    } else if s.elems[x] != g.elems[x] {
      var u :| 0 <= u < |s.pcs| && Writes(s.pcs[u], x)
               && (s.elems[x].key == g.elems[x].key || (IsInsert(s.pcs[u].c.op) && s.pcs[u].c.op.e == x));
      assert s'.pcs[u] == s.pcs[u];
    }
  }

  lemma DecidedElems(home: int -> int, s: State, g: Table, owner: seq<int>, t: int, c: Call, cs: seq<int>, seen: int,
                     o: Outcome, g': Table, s': State)
    requires Deciding(home, s, g, owner, t, c, cs, seen, o, g')
    requires s'.elems == s.elems && s'.hand == s.hand && |s'.pcs| == |s.pcs|
    requires forall u {:trigger s'.pcs[u]} :: 0 <= u < |s.pcs| && u != t ==> s'.pcs[u] == s.pcs[u]
    requires s'.pcs[t] == if o.x == NONE then Unlock(c, o, 0) else Write(c, o)
    ensures |g'.elems| == |g.elems|
    ensures forall x {:trigger ElemOK(s', g', x)} :: 0 <= x < |s.elems| ==> ElemOK(s', g', x)
    ensures forall u {:trigger s.pcs[u]} :: 0 <= u < |s.pcs| && u != t && s.pcs[u].Write?
                                             && 0 <= s.pcs[u].o.x < |g.elems| ==>
              g'.elems[s.pcs[u].o.x] == g.elems[s.pcs[u].o.x]
  {
    forall x | 0 <= x < |s.elems| ensures ElemOK(s', g', x) {
      DecidedElem(home, s, g, owner, t, c, cs, seen, o, g', s', x);
    }
    forall u | 0 <= u < |s.pcs| && u != t && s.pcs[u].Write? && 0 <= s.pcs[u].o.x < |g.elems|
      ensures g'.elems[s.pcs[u].o.x] == g.elems[s.pcs[u].o.x]
    {
      NoOtherWriter(home, s, g, owner, t, c, cs, seen, o, g', u);
    }
  }

  /** Nobody else is about to write the element this operation replaces. */
  lemma NoOtherWriter(home: int -> int, s: State, g: Table, owner: seq<int>, t: int, c: Call, cs: seq<int>, seen: int,
                      o: Outcome, g': Table, u: int)
    requires Deciding(home, s, g, owner, t, c, cs, seen, o, g') && 0 <= u < |s.pcs| && u != t
    requires s.pcs[u].Write? && 0 <= s.pcs[u].o.x < |g.elems|
    ensures s.pcs[u].o.x != o.x
  {
    var y := s.pcs[u].o.x;
    var q := WriterHolds(home, s, g, owner, u);
    if y == o.x && y in cs + [seen] {
      var p := TakerHolds(home, s, g, owner, t, c, cs, seen, y);
      if p != q { SlotsApart(g.slots, p, q); }
    }
  }

  /** A writer has locked the slot of its element. */
  lemma WriterHolds(home: int -> int, s: State, g: Table, owner: seq<int>, u: int) returns (q: int)
    requires Inv(home, s, g, owner) && 0 <= u < |s.pcs| && s.pcs[u].Write?
    ensures 0 <= q < |owner| && owner[q] == u && g.slots[q] == s.pcs[u].o.x
  {
    assert ThreadOK(home, s, g, u) && Owners(s, owner, u);
    var o, c, n := s.pcs[u].o, s.pcs[u].c, |g.slots|;
    var j :| 0 <= j < |o.cs| && o.cs[j] == o.x;
    Around(c.start, j, n);
    q := At(c.start, j, n);
    assert Holds(s.pcs[u], |owner|, q);
  }

  /** What a thread has seen is in slots that it, or nobody, has locked. */
  lemma TakerHolds(home: int -> int, s: State, g: Table, owner: seq<int>, t: int, c: Call, cs: seq<int>, seen: int,
                   y: int) returns (p: int)
    requires Taking(home, s, g, owner, t, c, cs, seen) && y in cs + [seen]
    ensures 0 <= p < |owner| && owner[p] in {t, NOBODY} && g.slots[p] == y
  {
    TakeReads(home, s, g, owner, t, c, cs, seen);
    assert Owners(s, owner, t);
    var all, n := cs + [seen], |g.slots|;
    var i :| 0 <= i < |all| && all[i] == y;
    Around(c.start, i, n);
    p := At(c.start, i, n);
    assert Holds(s.pcs[t], |owner|, p) <==> i < |cs|;
  }

  lemma DecidedKeeps(home: int -> int, s: State, g: Table, owner: seq<int>, t: int, c: Call, cs: seq<int>, seen: int,
                     o: Outcome, g': Table, s': State)
    requires Deciding(home, s, g, owner, t, c, cs, seen, o, g') && Sound(g', home)
    requires s'.hand == s.hand && |s'.pcs| == |s.pcs| && s'.elems == s.elems && |s'.slots| == |s.slots|
    requires forall u {:trigger s'.pcs[u]} :: 0 <= u < |s.pcs| && u != t ==> s'.pcs[u] == s.pcs[u]
    ensures 0 <= At(c.start, |cs|, |owner|) < |owner|
    ensures OthersKeep(home, s, g, owner, s', g', owner[At(c.start, |cs|, |owner|) := t], t)
  {
    var n := |owner|;
    TakeReads(home, s, g, owner, t, c, cs, seen);
    var p0 := At(c.start, |cs|, n);
    assert Owners(s, owner, t);
    forall p | 0 <= p < n && owner[p0 := t][p] != t ensures g'.slots[p] == g.slots[p] {
      assert owner[p] == t <==> Holds(s.pcs[t], n, p);
      Back(c.start, p, n);
    }
    forall x | 0 <= x < |s.elems| && (s.hand[x] != t || x in g.slots) ensures g'.elems[x].key == g.elems[x].key {}
  }

  lemma TakeLastStep(home: int -> int, s: State, g: Table, owner: seq<int>, t: int, c: Call, cs: seq<int>, seen: int)
    requires Taking(home, s, g, owner, t, c, cs, seen) && Stop(s.elems, c.op, c.key, cs + [seen])
    requires c.op.Remove? && 0 <= c.op.e < |g.elems| ==> ShiftIsSafe(g, home, c.op.e)
    ensures 0 <= At(c.start, |cs|, |owner|) < |owner|
    ensures var p := At(c.start, |cs|, |owner|);
            var s' := Locked(home, s, t, c, cs + [seen], p);
            && !s'.ended && Inv(home, s', Apply(g, home, c.op).t, owner[p := t])
            && s'.trace == s.trace + [Took(t, c.op, Apply(g, home, c.op).res)]
  {
    var p := At(c.start, |cs|, |owner|);
    var o, g' := Decide(home, s, g, owner, t, c, cs, seen);
    var s', owner' := Locked(home, s, t, c, cs + [seen], p), owner[p := t];
    DecidedKeeps(home, s, g, owner, t, c, cs, seen, o, g', s');
    DecidedElems(home, s, g, owner, t, c, cs, seen, o, g', s');
    LockOwners(home, s, g, owner, t, c, cs, seen, s'.pcs[t]);
    DecidedSlots(home, s, g, owner, t, c, cs, seen, o, g', s');
    DecidedThread(home, s, g, owner, t, c, cs, seen, o, g', s');
    Settle(home, s, g, owner, s', g', owner', t);
  }

  lemma DecidedSlots(home: int -> int, s: State, g: Table, owner: seq<int>, t: int, c: Call, cs: seq<int>, seen: int,
                     o: Outcome, g': Table, s': State)
    requires Deciding(home, s, g, owner, t, c, cs, seen, o, g') && |s'.pcs| == |s.pcs|
    requires 0 <= At(c.start, |cs|, |owner|) < |owner| && s'.slots == s.slots[At(c.start, |cs|, |owner|) := LOCK]
    ensures var owner' := owner[At(c.start, |cs|, |owner|) := t];
            forall q {:trigger SlotOK(s', g', owner', q)} :: 0 <= q < |s.slots| ==> SlotOK(s', g', owner', q)
  {
    var n := |owner|;
    var p := At(c.start, |cs|, n);
    assert Owners(s, owner, t);
    var owner' := owner[p := t];
    forall q | 0 <= q < n ensures SlotOK(s', g', owner', q) {
      assert SlotOK(s, g, owner, q);
      assert owner[q] == t <==> Holds(s.pcs[t], n, q);
      Back(c.start, q, n);
    }
  }

  lemma DecidedThread(home: int -> int, s: State, g: Table, owner: seq<int>, t: int, c: Call, cs: seq<int>, seen: int,
                      o: Outcome, g': Table, s': State)
    requires Deciding(home, s, g, owner, t, c, cs, seen, o, g') && |s'.pcs| == |s.pcs|
    requires s'.elems == s.elems && s'.hand == s.hand && |s'.slots| == |s.slots|
    requires s'.pcs[t] == if o.x == NONE then Unlock(c, o, 0) else Write(c, o)
    ensures ThreadOK(home, s', g', t)
  {
    forall j | 0 <= j < |o.cs| ensures o.cs[j] == g'.slots[At(c.start, j, |g'.slots|)] {
      Around(c.start, j, |g.slots|);
    }
  }

  // ---- storing and returning ----

  lemma WriteStep(home: int -> int, s: State, g: Table, owner: seq<int>, t: int)
    requires Inv(home, s, g, owner) && 0 <= t < |s.pcs| && s.pcs[t].Write? && !s.ended
    ensures Inv(home, Step(home, s, t, Go), g, owner)
  {
    var Write(c, o) := s.pcs[t];
    assert ThreadOK(home, s, g, t) && Owners(s, owner, t);
    var s' := Step(home, s, t, Go);
    SameSlots(s, s', g, owner);
    forall x | 0 <= x < |s.elems| ensures ElemOK(s', g, x) {
      assert ElemOK(s, g, x);
      if x != o.x && s.elems[x] != g.elems[x] {
        var u :| 0 <= u < |s.pcs| && Writes(s.pcs[u], x)
                 && (s.elems[x].key == g.elems[x].key || (IsInsert(s.pcs[u].c.op) && s.pcs[u].c.op.e == x));
        assert s'.pcs[u] == s.pcs[u];
      }
    }
    forall p | 0 <= p < |owner| ensures owner[p] == t <==> Holds(s'.pcs[t], |owner|, p) {
      assert owner[p] == t <==> Holds(s.pcs[t], |owner|, p);
      Back(c.start, p, |owner|);
    }
    Settle(home, s, g, owner, s', g, owner, t);
  }

  /** Giving back slot i takes just that one away. */
  lemma UnlockHolds(c: Call, o: Outcome, i: nat, n: int, q: int)
    requires 0 <= c.start < n && i < |o.cs| <= n && 0 <= q < n
    ensures var next := if i + 1 == |o.cs| then Return(c, o.res) else Unlock(c, o, i + 1);
            Holds(next, n, q) <==> Holds(Unlock(c, o, i), n, q) && q != At(c.start, i, n)
  {
    Back(c.start, q, n);
  }

  /** The slots after slot p is given back, and what thread t then holds. */
  lemma UnlockSlots(home: int -> int, s: State, g: Table, owner: seq<int>, t: int, s': State)
    requires Inv(home, s, g, owner) && 0 <= t < |s.pcs| && s.pcs[t].Unlock? && !s.ended && s' == Step(home, s, t, Go)
    ensures var p := At(s.pcs[t].c.start, s.pcs[t].i, |s.slots|);
            && 0 <= p < |owner| && owner[p] == t
            && (forall q {:trigger SlotOK(s', g, owner[p := NOBODY], q)} :: 0 <= q < |s.slots| ==>
                  SlotOK(s', g, owner[p := NOBODY], q))
            && Owners(s', owner[p := NOBODY], t)
  {
    var Unlock(c, o, i) := s.pcs[t];
    assert ThreadOK(home, s, g, t) && Owners(s, owner, t);
    var n := |owner|;
    Around(c.start, i, n);
    var p := At(c.start, i, n);
    assert owner[p] == t <==> Holds(s.pcs[t], n, p);
    var owner' := owner[p := NOBODY];
    forall q | 0 <= q < n ensures SlotOK(s', g, owner', q) && (owner'[q] == t <==> Holds(s'.pcs[t], n, q)) {
      assert SlotOK(s, g, owner, q);
      UnlockHolds(c, o, i, n, q);
      assert owner[q] == t <==> Holds(s.pcs[t], n, q);
    }
    assert Owners(s', owner', t);
  }

  lemma UnlockStep(home: int -> int, s: State, g: Table, owner: seq<int>, t: int)
    requires Inv(home, s, g, owner) && 0 <= t < |s.pcs| && s.pcs[t].Unlock? && !s.ended
    ensures var p := At(s.pcs[t].c.start, s.pcs[t].i, |s.slots|);
            0 <= p < |owner| && Inv(home, Step(home, s, t, Go), g, owner[p := NOBODY])
  {
    var s' := Step(home, s, t, Go);
    UnlockSlots(home, s, g, owner, t, s');
    assert ThreadOK(home, s, g, t);
    forall x | 0 <= x < |s.elems| ensures ElemOK(s', g, x) { SameElems(home, s, s', g, owner, t, x); }
    Settle(home, s, g, owner, s', g, owner[At(s.pcs[t].c.start, s.pcs[t].i, |s.slots|) := NOBODY], t);
  }

  lemma ReturnStep(home: int -> int, s: State, g: Table, owner: seq<int>, t: int)
    requires Inv(home, s, g, owner) && 0 <= t < |s.pcs| && s.pcs[t].Return? && !s.ended
    ensures Inv(home, Step(home, s, t, Go), g, owner)
  {
    var Return(c, res) := s.pcs[t];
    assert ThreadOK(home, s, g, t) && Owners(s, owner, t);
    var s' := Step(home, s, t, Go);
    SameSlots(s, s', g, owner);
    forall x | 0 <= x < |s.elems| ensures ElemOK(s', g, x) {
      assert ElemOK(s, g, x);
      if s.elems[x] != g.elems[x] {
        var u :| 0 <= u < |s.pcs| && Writes(s.pcs[u], x)
                 && (s.elems[x].key == g.elems[x].key || (IsInsert(s.pcs[u].c.op) && s.pcs[u].c.op.e == x));
        assert s'.pcs[u] == s.pcs[u];
      }
    }
    forall p | 0 <= p < |owner| ensures owner[p] == t <==> Holds(s'.pcs[t], |owner|, p) {
      assert owner[p] == t <==> Holds(s.pcs[t], |owner|, p);
    }
    Settle(home, s, g, owner, s', g, owner, t);
  }
}
