/**
 An index operation of one thread while no other thread is inside the index: step by step on the
 slots it does to memory what `Index.Apply` does to the table.
 */
module LoneSlots {
  import opened Index
  import opened IndexTable
  import opened IndexMap
  import opened SlotRuns
  import opened Sealing
  import S = SlotLocks

  /** The thread is inside an operation and has not got its result yet. */
  predicate Busy(s: S.State, t: int)
    requires 0 <= t < |s.pcs|
  {
    !s.ended && !s.pcs[t].Idle? && !s.pcs[t].Return?
  }

  /** Thread t goes on alone: k steps, or fewer if it has its result before. */
  ghost function On(home: int -> int, s: S.State, t: int, k: nat): (r: S.State)
    requires 0 <= t < |s.pcs|
    ensures |r.pcs| == |s.pcs|
    decreases k
  {
    if k == 0 || !Busy(s, t) then s else On(home, S.Step(home, s, t, S.Go), t, k - 1)
  }

  lemma {:induction false} OnAgain(home: int -> int, s: S.State, t: int, j: nat, k: nat)
    requires 0 <= t < |s.pcs|
    ensures On(home, s, t, j + k) == On(home, On(home, s, t, j), t, k)
    decreases j
  {
    if j > 0 && Busy(s, t) { OnAgain(home, S.Step(home, s, t, S.Go), t, j - 1, k); }
  }

  /** What a step of t that is neither a call nor a return leaves alone. */
  ghost predicate Apart(s: S.State, r: S.State, t: int) {
    && r.hand == s.hand && |r.pcs| == |s.pcs| && |r.elems| == |s.elems| && |r.slots| == |s.slots|
    && forall u {:trigger r.pcs[u]} :: 0 <= u < |s.pcs| && u != t ==> r.pcs[u] == s.pcs[u]
  }

  // ---- locking ----

  /** The thread holds the first m slots of the call, and nobody else holds any. */
  ghost predicate Holding(s: S.State, t: int, c: S.Call, g: Table, m: nat) {
    && 0 <= t < |s.pcs| && !s.ended && WellTabled(g) && 0 <= c.start < |g.slots| && m < |g.slots|
    && s.elems == g.elems && s.slots == Locked(g.slots, c.start, m)
    && s.pcs[t] == S.Look(c, Contents(g.slots, c.start, m))
  }

  /** One more slot: a load and a compare-and-swap that succeeds. */
  lemma TakesNext(home: int -> int, s: S.State, t: int, c: S.Call, g: Table, m: nat)
    requires Holding(s, t, c, g, m)
    ensures var p := At(c.start, m, |g.slots|);
            && 0 <= p < |s.slots|
            && On(home, s, t, 2) == S.Locked(home, S.Goto(s, t, S.Take(c, Contents(g.slots, c.start, m), g.slots[p])),
                                             t, c,
                                             Contents(g.slots, c.start, m + 1), p)
            && s.slots[p := LOCK] == Locked(g.slots, c.start, m + 1)
  {
    var p := At(c.start, m, |g.slots|);
    LockNext(g.slots, c.start, m);
    assert Valid(g.slots[p], |g.elems|);
    var a := S.Step(home, s, t, S.Go);
    assert a == S.Goto(s, t, S.Take(c, Contents(g.slots, c.start, m), g.slots[p]));
    assert On(home, s, t, 2) == On(home, a, t, 1) == S.Step(home, a, t, S.Go);
  }

  /** What locking the last slot leaves. */
  ghost predicate Settled(s: S.State, r: S.State, t: int, c: S.Call, o: Outcome) {
    && Apart(s, r, t) && 0 <= t < |s.pcs| && r.elems == s.elems
    && r.trace == s.trace + [S.Took(t, c.op, o.res)] && r.ended == (c.op.Remove? && o.res == Refused)
    && r.pcs[t] == if o.x == NONE then S.Unlock(c, o, 0) else S.Write(c, o)
  }

  lemma TakesLast(home: int -> int, s: S.State, t: int, c: S.Call, g: Table, m: nat)
    requires Holding(s, t, c, g, m) && Stop(g.elems, c.op, c.key, Contents(g.slots, c.start, m + 1))
    ensures var cs, r := Contents(g.slots, c.start, m + 1), On(home, s, t, 2);
            && Settled(s, r, t, c, Finish(g.elems, home, c.op, c.key, c.start, |g.slots|, cs))
            && r.slots == Locked(g.slots, c.start, m + 1)
  {
    TakesNext(home, s, t, c, g, m);
  }

  lemma TakesMore(home: int -> int, s: S.State, t: int, c: S.Call, g: Table, m: nat)
    requires Holding(s, t, c, g, m) && !Stop(g.elems, c.op, c.key, Contents(g.slots, c.start, m + 1))
    ensures var r := On(home, s, t, 2);
            && Apart(s, r, t) && r.trace == s.trace && r.elems == s.elems
            && if m + 1 >= S.BUFFER then r.ended else m + 1 < |g.slots| ==> Holding(r, t, c, g, m + 1)
  {
    TakesNext(home, s, t, c, g, m);
  }

  lemma ApartAgain(s: S.State, a: S.State, r: S.State, t: int)
    requires Apart(s, a, t) && Apart(a, r, t)
    ensures Apart(s, r, t)
  {
    forall u | 0 <= u < |s.pcs| && u != t ensures r.pcs[u] == s.pcs[u] { assert a.pcs[u] == s.pcs[u]; }
  }

  /** All slots the call needs are locked, and they settle it. */
  ghost predicate LocksAll(home: int -> int, s: S.State, r: S.State, t: int, c: S.Call, g: Table)
    requires 0 <= c.start < |g.slots|
  {
    var need := Need(g, c.op, c.key, c.start, 0);
    var cs := Contents(g.slots, c.start, need);
    && Stop(g.elems, c.op, c.key, cs) && r.slots == Locked(g.slots, c.start, need)
    && Settled(s, r, t, c, Finish(g.elems, home, c.op, c.key, c.start, |g.slots|, cs))
  }

  /** How far thread t gets with locking: to the end of its buffer or of its probe.  This and `Grips`
      are unfolded only where `FarIs` and `GripsIs` call for it. */
  ghost predicate Far(home: int -> int, s: S.State, r: S.State, t: int, c: S.Call, g: Table, need: nat)
    requires 0 <= c.start < |g.slots|
  {
    forall u {:trigger Look(u)} :: Look(u) ==>
      Apart(s, r, t) && if need > S.BUFFER then r.ended else LocksAll(home, s, r, t, c, g)
  }

  lemma FarIs(home: int -> int, s: S.State, r: S.State, t: int, c: S.Call, g: Table, need: nat)
    requires 0 <= c.start < |g.slots|
    ensures Far(home, s, r, t, c, g, need) <==>
              Apart(s, r, t) && if need > S.BUFFER then r.ended else LocksAll(home, s, r, t, c, g)
  {
    assert Look(0);
  }

  ghost predicate Grips(s: S.State, t: int, c: S.Call, g: Table, m: nat, need: nat) {
    forall u {:trigger Look(u)} :: Look(u) ==>
      Holding(s, t, c, g, m) && m < S.BUFFER && m < need && need == Need(g, c.op, c.key, c.start, 0)
  }

  lemma GripsIs(s: S.State, t: int, c: S.Call, g: Table, m: nat, need: nat)
    ensures Grips(s, t, c, g, m, need) <==>
              Holding(s, t, c, g, m) && m < S.BUFFER && m < need && need == Need(g, c.op, c.key, c.start, 0)
  {
    assert Look(0);
  }

  lemma FarOn(home: int -> int, s: S.State, a: S.State, r: S.State, t: int, c: S.Call, g: Table, need: nat, j: nat)
    requires 0 <= t < |s.pcs| && 0 <= c.start < |g.slots| && On(home, s, t, 2) == a && Apart(s, a, t)
    requires a.trace == s.trace && a.elems == s.elems && Far(home, a, r, t, c, g, need) && On(home, a, t, j) == r
    ensures On(home, s, t, 2 + j) == r && Far(home, s, r, t, c, g, need)
  {
    FarIs(home, a, r, t, c, g, need);
    FarIs(home, s, r, t, c, g, need);
    OnAgain(home, s, t, 2, j);
    ApartAgain(s, a, r, t);
  }

  /** The next slot is the last, or the buffer is full, or it goes on. */
  lemma TakesOne(home: int -> int, s: S.State, t: int, c: S.Call, g: Table, m: nat, need: nat)
    returns (a: S.State, last: bool)
    requires 0 <= t < |s.pcs| && Grips(s, t, c, g, m, need)
    ensures 0 <= c.start < |g.slots| && On(home, s, t, 2) == a && Apart(s, a, t)
    ensures if last then Far(home, s, a, t, c, g, need)
            else m + 1 < |g.slots| && a.trace == s.trace && a.elems == s.elems && Grips(a, t, c, g, m + 1, need)
  {
    GripsIs(s, t, c, g, m, need);
    a, last := On(home, s, t, 2), m + 1 == need || m + 1 == S.BUFFER;
    Stops(g, c.op, c.key, c.start);
    if m + 1 == need {
      TakesLast(home, s, t, c, g, m);
    } else {
      assert !Stop(g.elems, c.op, c.key, Contents(g.slots, c.start, m + 1));
      TakesMore(home, s, t, c, g, m);
    }
    FarIs(home, s, a, t, c, g, need);
    GripsIs(a, t, c, g, m + 1, need);
  }

  /** Locking all slots the operation needs; with more than the buffer has entries the run ends. */
  lemma {:induction false} TakesAll(home: int -> int, s: S.State, t: int, c: S.Call, g: Table, m: nat, need: nat)
    returns (k: nat, r: S.State)
    requires 0 <= t < |s.pcs| && Grips(s, t, c, g, m, need)
    ensures 0 <= c.start < |g.slots| && On(home, s, t, k) == r && Far(home, s, r, t, c, g, need)
    decreases |g.slots| - m
  {
    var a, last := TakesOne(home, s, t, c, g, m, need);
    k, r := 2, a;
    if !last {
      var j;
      j, r := TakesAll(home, a, t, c, g, m + 1, need);
      FarOn(home, s, a, r, t, c, g, need, j);
      k := 2 + j;
    }
  }

  // ---- writing and unlocking ----

  /** The element to be written exists. */
  lemma FinishInRange(g: Table, home: int -> int, op: Op, k: int, start: int, cs: seq<int>)
    requires WellTabled(g) && 0 <= start < |g.slots| && |cs| <= |g.slots| && cs == Contents(g.slots, start, |cs|)
    requires Probe(g.elems, k, cs) < |cs| && (S.IsInsert(op) ==> 0 <= op.e < |g.elems|)
    ensures var x := Finish(g.elems, home, op, k, start, |g.slots|, cs).x; x == NONE || 0 <= x < |g.elems|
  {
    var d := Probe(g.elems, k, cs);
    assert Matches(g.elems, k, cs[d]);
  }

  /** Giving back the slots from the i-th on. */
  lemma {:induction false} GivesBack(home: int -> int, s: S.State, t: int, c: S.Call, o: Outcome, was: seq<int>, i: nat)
    returns (k: nat, r: S.State)
    requires 0 <= t < |s.pcs| && !s.ended && s.pcs[t] == S.Unlock(c, o, i)
    requires 0 <= c.start < |was| && i < |o.cs| <= |was| && s.slots == Unlocked(was, c.start, o.cs, i)
    ensures On(home, s, t, k) == r && Apart(s, r, t) && r.trace == s.trace && r.elems == s.elems && !r.ended
    ensures r.slots == WriteBack(was, c.start, o.cs) && r.pcs[t] == S.Return(c, o.res)
    decreases |o.cs| - i
  {
    UnlockNext(was, c.start, o.cs, i);
    var a := S.Step(home, s, t, S.Go);
    assert On(home, s, t, 1) == On(home, a, t, 0) == a;
    if i + 1 == |o.cs| {
      assert o.cs[..|o.cs|] + seq(0, _ => LOCK) == o.cs;
      k, r := 1, a;
    } else {
      k, r := GivesBack(home, a, t, c, o, was, i + 1);
      OnAgain(home, s, t, 1, k);
      ApartAgain(s, a, r, t);
      k := k + 1;
    }
  }

  /** Storing the element, if there is one to store, and giving back all slots. */
  lemma Stores(home: int -> int, s: S.State, t: int, c: S.Call, o: Outcome, was: seq<int>)
    returns (k: nat, r: S.State)
    requires 0 <= t < |s.pcs| && !s.ended && s.pcs[t] == (if o.x == NONE then S.Unlock(c, o, 0) else S.Write(c, o))
    requires o.x == NONE || 0 <= o.x < |s.elems|
    requires 0 <= c.start < |was| && 0 < |o.cs| <= |was| && s.slots == Locked(was, c.start, |o.cs|)
    ensures On(home, s, t, k) == r && Apart(s, r, t) && r.trace == s.trace && !r.ended
    ensures r.slots == WriteBack(was, c.start, o.cs) && r.pcs[t] == S.Return(c, o.res)
    ensures r.elems == if 0 <= o.x < |s.elems| then s.elems[o.x := o.elem] else s.elems
  {
    assert o.cs[..0] + seq(|o.cs|, _ => LOCK) == seq(|o.cs|, _ => LOCK);
    if o.x == NONE {
      k, r := GivesBack(home, s, t, c, o, was, 0);
    } else {
      var a := S.Step(home, s, t, S.Go);
      assert On(home, s, t, 1) == On(home, a, t, 0) == a;
      k, r := GivesBack(home, a, t, c, o, was, 0);
      OnAgain(home, s, t, 1, k);
      ApartAgain(s, a, r, t);
      k := k + 1;
    }
  }

  // ---- the whole operation ----

  /** Nobody holds a slot, and thread t has just called op. */
  ghost predicate Called(home: int -> int, s: S.State, t: int, op: Op, g: Table) {
    && 0 <= t < |s.pcs| && !s.ended && WellTabled(g) && Homes(home, |g.slots|)
    && g == Table(s.slots, s.elems) && (S.IsInsert(op) ==> 0 <= op.e < |g.elems|)
    && s.pcs[t] == S.Look(S.Call(op, KeyOf(g.elems, op), home(KeyOf(g.elems, op))), [])
  }

  /** What the operation leaves once thread t has its result. */
  ghost predicate Answered(s: S.State, r: S.State, t: int, op: Op, a: Applied) {
    && Apart(s, r, t) && 0 <= t < |s.pcs| && !r.ended
    && r.slots == a.t.slots && r.elems == a.t.elems && r.trace == s.trace + [S.Took(t, op, a.res)]
    && r.pcs[t].Return? && r.pcs[t].c.op == op && r.pcs[t].res == a.res
  }

  /** The whole operation: it ends as the serial operation does, or with an overrun if it needs more
      slots than a lock buffer has entries. */
  lemma AnswersAlone(home: int -> int, s: S.State, t: int, op: Op, g: Table) returns (k: nat, r: S.State)
    requires Called(home, s, t, op, g)
    requires op.Remove? ==> Apply(g, home, op).res != Refused
    ensures On(home, s, t, k) == r
    ensures var need := Need(g, op, KeyOf(g.elems, op), home(KeyOf(g.elems, op)), 0);
            if need > S.BUFFER then r.ended else Answered(s, r, t, op, Apply(g, home, op))
  {
    var key := KeyOf(g.elems, op);
    var c := S.Call(op, key, home(key));
    var need := Need(g, op, key, c.start, 0);
    CallHolds(home, s, t, op, g);
    var j, a := TakesAll(home, s, t, c, g, 0, need);
    k, r := j, a;
    FarIs(home, s, a, t, c, g, need);
    if need <= S.BUFFER {
      var i;
      i, r := Finishes(home, s, a, t, op, g);
      OnAgain(home, s, t, j, i);
      k := j + i;
    }
  }

  lemma CallHolds(home: int -> int, s: S.State, t: int, op: Op, g: Table)
    requires Called(home, s, t, op, g)
    ensures var key := KeyOf(g.elems, op);
            && 0 <= home(key) < |g.slots|
            && Grips(s, t, S.Call(op, key, home(key)), g, 0, Need(g, op, key, home(key), 0))
  {
    var key := KeyOf(g.elems, op);
    LockedNone(g.slots, home(key));
    Stops(g, op, key, home(key));
    assert Contents(g.slots, home(key), 0) == [];
    GripsIs(s, t, S.Call(op, key, home(key)), g, 0, Need(g, op, key, home(key), 0));
  }

  /** From the last lock on. */
  lemma Finishes(home: int -> int, s: S.State, a: S.State, t: int, op: Op, g: Table) returns (k: nat, r: S.State)
    requires Called(home, s, t, op, g) && Apart(s, a, t)
    requires LocksAll(home, s, a, t, S.Call(op, KeyOf(g.elems, op), home(KeyOf(g.elems, op))), g)
    requires op.Remove? ==> Apply(g, home, op).res != Refused
    ensures On(home, a, t, k) == r && Answered(s, r, t, op, Apply(g, home, op))
  {
    var key := KeyOf(g.elems, op);
    var c := S.Call(op, key, home(key));
    var cs := Contents(g.slots, c.start, Need(g, op, key, c.start, 0));
    ApplyIs(g, home, op, key, cs);
    FinishInRange(g, home, op, key, c.start, cs);
    k, r := Stores(home, a, t, c, Finish(g.elems, home, op, key, c.start, |g.slots|, cs), g.slots);
    ApartAgain(s, a, r, t);
  }
}
