/** What the slot locks guarantee over whole runs: linearizability, a finite map, no deadlock. */
module SlotTheorems {
  import opened Index
  import opened IndexTable
  import opened IndexMap
  import opened IndexRemove
  import opened SlotLocks
  import opened SlotInvariant
  import opened SlotSteps
  import opened Pigeonhole

  datatype Pick = Pick(t: int, ch: Choice)

  ghost predicate Legal(ps: seq<Pick>, threads: int) {
    forall i :: 0 <= i < |ps| ==> 0 <= ps[i].t < threads
  }

  ghost function Run(home: int -> int, s: State, ps: seq<Pick>): (r: State)
    requires Legal(ps, |s.pcs|)
    ensures |r.pcs| == |s.pcs|
  {
    if ps == [] then s
    else
      var p := ps[|ps| - 1];
      Step(home, Run(home, s, ps[..|ps| - 1]), p.t, p.ch)
  }

  /** A table the constructor can leave: no element indexed, each in the hands of some thread. */
  ghost predicate Initial(home: int -> int, n: nat, elems: seq<Elem>, threads: nat, hands: seq<int>) {
    && |elems| == |hands| && |elems| < n && |elems| <= LOCK && Homes(home, n)
    && forall x {:trigger hands[x]} :: 0 <= x < |hands| ==> 0 <= hands[x] < threads
  }

  function Empty(n: nat, elems: seq<Elem>): Table { Table(seq(n, _ => FREE), elems) }

  /** Whenever an eviction takes effect, shifting the run behind it is safe. */
  ghost predicate Benign(home: int -> int, g: Table, trace: seq<Event>)
    requires Homes(home, |g.slots|)
  {
    forall i {:trigger SafeAt(home, g, trace, i)} :: 0 <= i < |trace| ==> SafeAt(home, g, trace, i)
  }

  ghost predicate SafeAt(home: int -> int, g: Table, trace: seq<Event>, i: int)
    requires Homes(home, |g.slots|) && 0 <= i < |trace|
  {
    trace[i].Took? && trace[i].op.Remove? && 0 <= trace[i].op.e < |g.elems| ==>
      ShiftIsSafe(Replay(home, g, trace[..i]), home, trace[i].op.e)
  }

  // ---- a finite map ----

  /** What the operation answers and leaves when the index is map m; k is the key it concerns. */
  function MapAnswer(m: map<int, int>, op: Op, k: int): Res {
    match op
    case Get(_) => if k in m then Got(m[k]) else NotFound
    case Set(_, _) => if k in m then Ok else Refused
    case Insert(_, _, _) => if k in m then Refused else Ok
    case InsertOrSet(_, _, _) => if k in m then Refused else Ok
    case Remove(_) => Ok
  }

  function MapAfter(m: map<int, int>, op: Op, k: int): map<int, int> {
    match op
    case Get(_) => m
    case Set(_, v) => if k in m then m[k := v] else m
    case Insert(_, v, _) => if k in m then m else m[k := v]
    case InsertOrSet(_, v, _) => m[k := v]
    case Remove(_) => m - {k}
  }

  /** The operation does to the index what it does to the map. */
  ghost predicate Refines(g: Table, home: int -> int, op: Op)
    requires Homes(home, |g.slots|)
  {
    var k, r := KeyOf(g.elems, op), Apply(g, home, op);
    r.res == MapAnswer(View(g), op, k) && View(r.t) == MapAfter(View(g), op, k)
  }

  lemma MapUpdates(g: Table, home: int -> int, op: Op)
    requires Fair(g, home, op) && (op.Insert? || op.InsertOrSet? || op.Set?)
    ensures Refines(g, home, op)
  {
    if op.Set? { SetMeaning(g, home, op.k, op.v); } else { InsertMeaning(g, home, op); }
  }

  lemma MapRemoves(g: Table, home: int -> int, e: int)
    requires Fair(g, home, Remove(e))
    ensures Refines(g, home, Remove(e))
  {
    RemoveMeaning(g, home, e);
  }

  lemma MapMeaning(g: Table, home: int -> int, op: Op)
    requires Fair(g, home, op)
    ensures Refines(g, home, op)
  {
    match op
    case Get(k) => GetMeaning(g, home, k);
    case Remove(e) => MapRemoves(g, home, e);
    case _ => MapUpdates(g, home, op);
  }

  /** Event i of the trace answers from the map the earlier events built, and updates it. */
  ghost predicate MapLikeAt(home: int -> int, g: Table, trace: seq<Event>, i: int)
    requires Homes(home, |g.slots|) && 0 <= i < |trace| && trace[i].Took?
  {
    var before, after := Replay(home, g, trace[..i]), Replay(home, g, trace[..i + 1]);
    var k := KeyOf(before.elems, trace[i].op);
    && trace[i].res == MapAnswer(View(before), trace[i].op, k)
    && View(after) == MapAfter(View(before), trace[i].op, k)
  }

  ghost predicate MapLike(home: int -> int, g: Table, trace: seq<Event>)
    requires Homes(home, |g.slots|)
  {
    forall i {:trigger MapLikeAt(home, g, trace, i)} :: 0 <= i < |trace| && trace[i].Took? ==>
      MapLikeAt(home, g, trace, i)
  }

  // ---- traces grow one event at a time ----

  lemma ReplayGrows(home: int -> int, g: Table, trace: seq<Event>, ev: Event)
    requires Homes(home, |g.slots|)
    ensures Replay(home, g, trace + [ev]) ==
            if ev.Took? then Apply(Replay(home, g, trace), home, ev.op).t else Replay(home, g, trace)
  {
    assert (trace + [ev])[..|trace|] == trace;
  }

  lemma GrowsAt(home: int -> int, g: Table, trace: seq<Event>, ev: Event, i: int)
    requires Homes(home, |g.slots|) && 0 <= i < |trace| && trace[i].Took?
    requires SerialAt(home, g, trace, i) && MapLikeAt(home, g, trace, i)
    ensures (trace + [ev])[i].Took? && SerialAt(home, g, trace + [ev], i) && MapLikeAt(home, g, trace + [ev], i)
  {
    var all := trace + [ev];
    assert all[i] == trace[i] && all[..i] == trace[..i] && all[..i + 1] == trace[..i + 1];
  }

  lemma GrowsLast(home: int -> int, g: Table, trace: seq<Event>, ev: Event)
    requires Homes(home, |g.slots|) && ev.Took?
    requires ev.res == Apply(Replay(home, g, trace), home, ev.op).res && Fair(Replay(home, g, trace), home, ev.op)
    ensures SerialAt(home, g, trace + [ev], |trace|) && MapLikeAt(home, g, trace + [ev], |trace|)
  {
    var all := trace + [ev];
    assert all[..|trace|] == trace && all[..|trace| + 1] == all;
    ReplayGrows(home, g, trace, ev);
    MapMeaning(Replay(home, g, trace), home, ev.op);
  }

  lemma Grows(home: int -> int, g: Table, trace: seq<Event>, ev: Event)
    requires Homes(home, |g.slots|) && Serial(home, g, trace) && MapLike(home, g, trace)
    requires ev.Took? ==> ev.res == Apply(Replay(home, g, trace), home, ev.op).res
                          && Fair(Replay(home, g, trace), home, ev.op)
    ensures Serial(home, g, trace + [ev]) && MapLike(home, g, trace + [ev])
  {
    var all := trace + [ev];
    forall i | 0 <= i < |all| && all[i].Took? ensures SerialAt(home, g, all, i) && MapLikeAt(home, g, all, i) {
      if i < |trace| {
        assert all[i] == trace[i] && MapLikeAt(home, g, trace, i) && SerialAt(home, g, trace, i);
        GrowsAt(home, g, trace, ev, i);
      } else {
        GrowsLast(home, g, trace, ev);
      }
    }
  }

  lemma PhaseGrows(trace: seq<Event>, ev: Event, t: int)
    ensures PhaseOf(trace + [ev], t) == if ev.t == t then NextPhase(PhaseOf(trace, t), ev) else PhaseOf(trace, t)
  {
    assert (trace + [ev])[..|trace|] == trace;
  }

  lemma BenignPrefix(home: int -> int, g: Table, trace: seq<Event>, ev: Event)
    requires Homes(home, |g.slots|) && Benign(home, g, trace + [ev])
    ensures Benign(home, g, trace)
    ensures ev.Took? && ev.op.Remove? && 0 <= ev.op.e < |g.elems| ==> ShiftIsSafe(Replay(home, g, trace), home, ev.op.e)
  {
    var all := trace + [ev];
    forall i | 0 <= i < |trace| ensures SafeAt(home, g, trace, i) {
      assert SafeAt(home, g, all, i);
      assert all[i] == trace[i] && all[..i] == trace[..i];
    }
    assert SafeAt(home, g, all, |trace|);
    assert all[|trace|] == ev && all[..|trace|] == trace;
  }

  // ---- the phases of the threads ----

  ghost predicate PhaseIs(pc: PC, ph: Phase) {
    match pc
    case Idle => ph == Quiet
    case Look(c, _) => ph == Pending(c.op)
    case Take(c, _, _) => ph == Pending(c.op)
    case Write(c, o) => ph == Decided(c.op, o.res)
    case Unlock(c, o, _) => ph == Decided(c.op, o.res)
    case Return(c, res) => ph == Decided(c.op, res)
  }

  ghost predicate Phased(s: State) {
    forall t {:trigger s.pcs[t]} :: 0 <= t < |s.pcs| ==> PhaseIs(s.pcs[t], PhaseOf(s.trace, t))
  }

  /** A step adds at most one event, of its own thread. */
  lemma TraceStep(home: int -> int, s: State, t: int, ch: Choice)
    requires 0 <= t < |s.pcs|
    ensures var tr := Step(home, s, t, ch).trace;
            tr == s.trace || (|tr| == |s.trace| + 1 && tr == s.trace + [tr[|s.trace|]] && tr[|s.trace|].t == t)
  {}

  /** The thread's own program counter moves as its event says. */
  lemma OwnPhase(home: int -> int, s: State, t: int, ch: Choice, ph: Phase)
    requires 0 <= t < |s.pcs| && !s.ended && PhaseIs(s.pcs[t], ph)
    requires s.pcs[t].Unlock? ==> s.pcs[t].i < |s.pcs[t].o.cs|
    ensures var s' := Step(home, s, t, ch);
            PhaseIs(s'.pcs[t], if |s'.trace| == |s.trace| then ph else NextPhase(ph, s'.trace[|s'.trace| - 1]))
  {}

  /** Program counters and trace move together. */
  lemma PhaseStep(home: int -> int, s: State, t: int, ch: Choice)
    requires 0 <= t < |s.pcs| && Phased(s) && !s.ended
    requires s.pcs[t].Unlock? ==> s.pcs[t].i < |s.pcs[t].o.cs|
    ensures Phased(Step(home, s, t, ch))
    ensures var tr := Step(home, s, t, ch).trace;
            tr == s.trace || (|tr| == |s.trace| + 1 && tr == s.trace + [tr[|s.trace|]] && tr[|s.trace|].t == t)
  {
    var s' := Step(home, s, t, ch);
    TraceStep(home, s, t, ch);
    OwnPhase(home, s, t, ch, PhaseOf(s.trace, t));
    forall u | 0 <= u < |s.pcs| ensures PhaseIs(s'.pcs[u], PhaseOf(s'.trace, u)) {
      assert PhaseIs(s.pcs[u], PhaseOf(s.trace, u));
      if s'.trace != s.trace { PhaseGrows(s.trace, s'.trace[|s.trace|], u); }
    }
  }

  lemma PhasedNotBroken(s: State, t: int)
    requires Phased(s) && 0 <= t < |s.pcs|
    ensures PhaseOf(s.trace, t) != Broken
  {
    assert PhaseIs(s.pcs[t], PhaseOf(s.trace, t));
  }

  // ---- every run ----

  /** What holds after every step of every run. */
  ghost predicate Good(home: int -> int, g: Table, s: State)
    requires Homes(home, |g.slots|)
  {
    && Phased(s) && Serial(home, g, s.trace) && MapLike(home, g, s.trace)
    && (!s.ended ==> exists owner :: Inv(home, s, Replay(home, g, s.trace), owner))
  }

  lemma StartGood(home: int -> int, n: nat, elems: seq<Elem>, threads: nat, hands: seq<int>)
    requires Initial(home, n, elems, threads, hands)
    ensures Good(home, Empty(n, elems), Start(n, elems, threads, hands))
  {
    var s, g := Start(n, elems, threads, hands), Empty(n, elems);
    var owner := seq(n, _ => NOBODY);
    forall p | 0 <= p < n ensures SlotOK(s, g, owner, p) {}
    forall x | 0 <= x < |elems| ensures ElemOK(s, g, x) {
      assert 0 <= hands[x] < threads;
      assert forall p {:trigger g.slots[p]} :: 0 <= p < n ==> g.slots[p] == FREE;
    }
    assert Replay(home, g, s.trace) == g;
    assert Inv(home, s, g, owner);
  }

  /** In a benign run the removal whose last slot is taken is safe. */
  lemma LastIsSafe(home: int -> int, g: Table, s: State, owner: seq<int>, t: int, c: Call, cs: seq<int>, seen: int)
    requires Homes(home, |g.slots|) && Taking(home, s, Replay(home, g, s.trace), owner, t, c, cs, seen)
    requires Stop(s.elems, c.op, c.key, cs + [seen])
    requires Benign(home, g, Locked(home, s, t, c, cs + [seen], At(c.start, |cs|, |s.slots|)).trace)
    ensures var r := Replay(home, g, s.trace);
            c.op.Remove? && 0 <= c.op.e < |r.elems| ==> ShiftIsSafe(r, home, c.op.e)
  {
    var s' := Locked(home, s, t, c, cs + [seen], At(c.start, |cs|, |s.slots|));
    BenignPrefix(home, g, s.trace, s'.trace[|s.trace|]);
  }

  lemma TakeLastGood(home: int -> int, g: Table, s: State, owner: seq<int>, t: int, c: Call, cs: seq<int>, seen: int)
    requires Homes(home, |g.slots|) && Serial(home, g, s.trace) && MapLike(home, g, s.trace)
    requires Taking(home, s, Replay(home, g, s.trace), owner, t, c, cs, seen)
    requires Stop(s.elems, c.op, c.key, cs + [seen])
    requires Benign(home, g, Locked(home, s, t, c, cs + [seen], At(c.start, |cs|, |s.slots|)).trace)
    ensures var s' := Locked(home, s, t, c, cs + [seen], At(c.start, |cs|, |s.slots|));
            && !s'.ended && Serial(home, g, s'.trace) && MapLike(home, g, s'.trace)
            && exists owner' :: Inv(home, s', Replay(home, g, s'.trace), owner')
  {
    var r := Replay(home, g, s.trace);
    LastIsSafe(home, g, s, owner, t, c, cs, seen);
    TakeLastStep(home, s, r, owner, t, c, cs, seen);
    var ev := Took(t, c.op, Apply(r, home, c.op).res);
    ReplayGrows(home, g, s.trace, ev);
    FairAtLast(home, s, r, owner, t, c, cs, seen);
    Grows(home, g, s.trace, ev);
  }

  /** All of `Good` but the phases, in a run that goes on. */
  ghost predicate GoesOn(home: int -> int, g: Table, s: State)
    requires Homes(home, |g.slots|)
  {
    && !s.ended && Serial(home, g, s.trace) && MapLike(home, g, s.trace)
    && exists owner :: Inv(home, s, Replay(home, g, s.trace), owner)
  }

  lemma RetryGood(home: int -> int, g: Table, s: State, owner: seq<int>, t: int, c: Call, cs: seq<int>, pc: PC)
    requires Homes(home, |g.slots|) && Serial(home, g, s.trace) && MapLike(home, g, s.trace)
    requires Inv(home, s, Replay(home, g, s.trace), owner) && !s.ended && 0 <= t < |s.pcs|
    requires (s.pcs[t].Look? || s.pcs[t].Take?) && s.pcs[t].c == c && s.pcs[t].cs == cs
    requires pc == Look(c, cs) || (pc.Take? && pc == Take(c, cs, pc.seen) && pc.seen != LOCK)
    ensures GoesOn(home, g, Goto(s, t, pc))
  {
    RetryStep(home, s, Replay(home, g, s.trace), owner, t, c, cs, pc);
    assert Inv(home, Goto(s, t, pc), Replay(home, g, s.trace), owner);
  }

  lemma MoreGood(home: int -> int, g: Table, s: State, owner: seq<int>, t: int, c: Call, cs: seq<int>, seen: int)
    requires Homes(home, |g.slots|) && Serial(home, g, s.trace) && MapLike(home, g, s.trace)
    requires Taking(home, s, Replay(home, g, s.trace), owner, t, c, cs, seen)
    requires !Stop(s.elems, c.op, c.key, cs + [seen])
    ensures var s' := Locked(home, s, t, c, cs + [seen], At(c.start, |cs|, |s.slots|));
            if s'.ended then |cs| + 1 >= BUFFER && s'.trace == s.trace else GoesOn(home, g, s')
  {
    TakeMoreStep(home, s, Replay(home, g, s.trace), owner, t, c, cs, seen);
  }

  /** Where a compare-and-swap of a slot leads. */
  lemma TakeGoes(home: int -> int, g: Table, s: State, owner: seq<int>, t: int, ch: Choice)
    requires Homes(home, |g.slots|) && Good(home, g, s) && !s.ended && 0 <= t < |s.pcs|
    requires Inv(home, s, Replay(home, g, s.trace), owner) && s.pcs[t].Take?
    requires Benign(home, g, Step(home, s, t, ch).trace)
    ensures var s' := Step(home, s, t, ch);
            if s'.ended then |s.pcs[t].cs| + 1 >= BUFFER && s'.trace == s.trace else GoesOn(home, g, s')
  {
    var Take(c, cs, seen) := s.pcs[t];
    var r := Replay(home, g, s.trace);
    assert ThreadOK(home, s, r, t);
    var p := At(c.start, |cs|, |s.slots|);
    TakeInRange(home, s, r, owner, t);
    if s.slots[p] == LOCK {
      RetryGood(home, g, s, owner, t, c, cs, Look(c, cs));
    } else if ch.Spurious? || s.slots[p] != seen {
      RetryGood(home, g, s, owner, t, c, cs, Take(c, cs, s.slots[p]));
    } else if Stop(s.elems, c.op, c.key, cs + [seen]) {
      TakeLastGood(home, g, s, owner, t, c, cs, seen);
    } else {
      MoreGood(home, g, s, owner, t, c, cs, seen);
    }
  }

  lemma TakeInRange(home: int -> int, s: State, g: Table, owner: seq<int>, t: int)
    requires Inv(home, s, g, owner) && 0 <= t < |s.pcs| && (s.pcs[t].Look? || s.pcs[t].Take?)
    ensures 0 <= At(s.pcs[t].c.start, |s.pcs[t].cs|, |s.slots|) < |s.slots|
  {
    assert ThreadOK(home, s, g, t);
  }

  lemma TakeGood(home: int -> int, g: Table, s: State, owner: seq<int>, t: int, ch: Choice)
    requires Homes(home, |g.slots|) && Good(home, g, s) && !s.ended && 0 <= t < |s.pcs|
    requires Inv(home, s, Replay(home, g, s.trace), owner) && s.pcs[t].Take?
    requires Benign(home, g, Step(home, s, t, ch).trace)
    ensures Good(home, g, Step(home, s, t, ch))
    ensures Step(home, s, t, ch).ended ==> |s.pcs[t].cs| + 1 >= BUFFER
  {
    PhaseStep(home, s, t, ch);
    TakeGoes(home, g, s, owner, t, ch);
  }

  lemma FairAtLast(home: int -> int, s: State, g: Table, owner: seq<int>, t: int, c: Call, cs: seq<int>, seen: int)
    requires Taking(home, s, g, owner, t, c, cs, seen)
    requires c.op.Remove? && 0 <= c.op.e < |g.elems| ==> ShiftIsSafe(g, home, c.op.e)
    ensures Fair(g, home, c.op)
  {
    assert ThreadOK(home, s, g, t);
    if IsInsert(c.op) || c.op.Remove? { assert ElemOK(s, g, c.op.e); }
  }

  lemma StepGood(home: int -> int, g: Table, s: State, t: int, ch: Choice)
    requires Homes(home, |g.slots|) && Good(home, g, s) && 0 <= t < |s.pcs|
    requires Benign(home, g, Step(home, s, t, ch).trace)
    ensures Good(home, g, Step(home, s, t, ch))
  {
    if !s.ended {
      var r := Replay(home, g, s.trace);
      var owner :| Inv(home, s, r, owner);
      assert ThreadOK(home, s, r, t);
      if s.pcs[t].Take? {
        TakeGood(home, g, s, owner, t, ch);
      } else {
        PhaseStep(home, s, t, ch);
        OtherGood(home, g, s, owner, t, ch);
      }
    }
  }

  lemma BeginGood(home: int -> int, g: Table, s: State, owner: seq<int>, t: int, op: Op)
    requires Homes(home, |g.slots|) && Serial(home, g, s.trace) && MapLike(home, g, s.trace)
    requires Inv(home, s, Replay(home, g, s.trace), owner) && !s.ended && 0 <= t < |s.pcs| && s.pcs[t].Idle?
    ensures GoesOn(home, g, Begins(home, s, t, op))
  {
    BeginStep(home, s, Replay(home, g, s.trace), owner, t, op);
    if CanBegin(s, t, op) {
      EventGood(home, g, s, Begins(home, s, t, op), owner, Invoked(t, op));
    } else {
      QuietGood(home, g, s, s, owner);
    }
  }

  /** Steps that begin or end a call. */
  lemma EventGood(home: int -> int, g: Table, s: State, s': State, owner: seq<int>, ev: Event)
    requires Homes(home, |g.slots|) && Serial(home, g, s.trace) && MapLike(home, g, s.trace) && !ev.Took?
    requires s'.trace == s.trace + [ev] && !s'.ended && Inv(home, s', Replay(home, g, s.trace), owner)
    ensures GoesOn(home, g, s')
  {
    ReplayGrows(home, g, s.trace, ev);
    Grows(home, g, s.trace, ev);
  }

  /** Steps that add no event. */
  lemma QuietGood(home: int -> int, g: Table, s: State, s': State, owner: seq<int>)
    requires Homes(home, |g.slots|) && Serial(home, g, s.trace) && MapLike(home, g, s.trace)
    requires s'.trace == s.trace && !s'.ended && Inv(home, s', Replay(home, g, s.trace), owner)
    ensures GoesOn(home, g, s')
  {}

  lemma ReturnGood(home: int -> int, g: Table, s: State, owner: seq<int>, t: int)
    requires Homes(home, |g.slots|) && Serial(home, g, s.trace) && MapLike(home, g, s.trace)
    requires Inv(home, s, Replay(home, g, s.trace), owner) && !s.ended && 0 <= t < |s.pcs| && s.pcs[t].Return?
    ensures GoesOn(home, g, Step(home, s, t, Go))
  {
    ReturnStep(home, s, Replay(home, g, s.trace), owner, t);
    StoreTrace(home, s, t);
    EventGood(home, g, s, Step(home, s, t, Go), owner, Returned(t, s.pcs[t].res));
  }

  lemma StoreTrace(home: int -> int, s: State, t: int)
    requires 0 <= t < |s.pcs| && !s.ended
    ensures var s' := Step(home, s, t, Go);
            && (s.pcs[t].Write? || s.pcs[t].Unlock? ==> s'.trace == s.trace && !s'.ended)
            && (s.pcs[t].Return? ==> s'.trace == s.trace + [Returned(t, s.pcs[t].res)] && !s'.ended)
  {}

  lemma WriteGood(home: int -> int, g: Table, s: State, owner: seq<int>, t: int)
    requires Homes(home, |g.slots|) && Serial(home, g, s.trace) && MapLike(home, g, s.trace)
    requires Inv(home, s, Replay(home, g, s.trace), owner) && !s.ended && 0 <= t < |s.pcs| && s.pcs[t].Write?
    ensures GoesOn(home, g, Step(home, s, t, Go))
  {
    WriteStep(home, s, Replay(home, g, s.trace), owner, t);
    StoreTrace(home, s, t);
    QuietGood(home, g, s, Step(home, s, t, Go), owner);
  }

  lemma UnlockGood(home: int -> int, g: Table, s: State, owner: seq<int>, t: int)
    requires Homes(home, |g.slots|) && Serial(home, g, s.trace) && MapLike(home, g, s.trace)
    requires Inv(home, s, Replay(home, g, s.trace), owner) && !s.ended && 0 <= t < |s.pcs| && s.pcs[t].Unlock?
    ensures GoesOn(home, g, Step(home, s, t, Go))
  {
    var p := At(s.pcs[t].c.start, s.pcs[t].i, |s.slots|);
    UnlockStep(home, s, Replay(home, g, s.trace), owner, t);
    StoreTrace(home, s, t);
    QuietGood(home, g, s, Step(home, s, t, Go), owner[p := NOBODY]);
  }

  lemma LookGood(home: int -> int, g: Table, s: State, owner: seq<int>, t: int)
    requires Homes(home, |g.slots|) && Serial(home, g, s.trace) && MapLike(home, g, s.trace)
    requires Inv(home, s, Replay(home, g, s.trace), owner) && !s.ended && 0 <= t < |s.pcs| && s.pcs[t].Look?
    ensures GoesOn(home, g, Step(home, s, t, Go))
  {
    var Look(c, cs) := s.pcs[t];
    TakeInRange(home, s, Replay(home, g, s.trace), owner, t);
    var p := At(c.start, |cs|, |s.slots|);
    if s.slots[p] != LOCK {
      RetryGood(home, g, s, owner, t, c, cs, Take(c, cs, s.slots[p]));
    } else {
      QuietGood(home, g, s, s, owner);
    }
  }

  /** Apart from taking a slot and beginning, a step depends on no choice. */
  lemma SameStep(home: int -> int, s: State, t: int, ch: Choice)
    requires 0 <= t < |s.pcs| && !s.pcs[t].Take? && !s.pcs[t].Idle?
    ensures Step(home, s, t, ch) == Step(home, s, t, Go)
  {}

  lemma OtherGood(home: int -> int, g: Table, s: State, owner: seq<int>, t: int, ch: Choice)
    requires Homes(home, |g.slots|) && Good(home, g, s) && !s.ended && 0 <= t < |s.pcs| && !s.pcs[t].Take?
    requires Inv(home, s, Replay(home, g, s.trace), owner)
    ensures GoesOn(home, g, Step(home, s, t, ch))
  {
    if s.pcs[t].Idle? {
      if ch.Begin? { BeginGood(home, g, s, owner, t, ch.op); }
    } else {
      SameStep(home, s, t, ch);
      if s.pcs[t].Look? {
        LookGood(home, g, s, owner, t);
      } else if s.pcs[t].Return? {
        ReturnGood(home, g, s, owner, t);
      } else if s.pcs[t].Write? {
        WriteGood(home, g, s, owner, t);
      } else {
        UnlockGood(home, g, s, owner, t);
      }
    }
  }

  lemma TraceGrows(home: int -> int, s: State, t: int, ch: Choice)
    requires 0 <= t < |s.pcs|
    ensures s.trace <= Step(home, s, t, ch).trace
  {}

  lemma {:induction false} BenignShorter(home: int -> int, g: Table, a: seq<Event>, b: seq<Event>)
    requires Homes(home, |g.slots|) && a <= b && Benign(home, g, b)
    ensures Benign(home, g, a)
  {
    forall i | 0 <= i < |a| ensures SafeAt(home, g, a, i) {
      assert SafeAt(home, g, b, i);
      assert a[i] == b[i] && a[..i] == b[..i];
    }
  }

  lemma {:induction false} RunGood(home: int -> int, n: nat, elems: seq<Elem>, threads: nat, hands: seq<int>,
                                   ps: seq<Pick>)
    requires Initial(home, n, elems, threads, hands) && Legal(ps, threads)
    requires Benign(home, Empty(n, elems), Run(home, Start(n, elems, threads, hands), ps).trace)
    ensures Good(home, Empty(n, elems), Run(home, Start(n, elems, threads, hands), ps))
  {
    var g, s0 := Empty(n, elems), Start(n, elems, threads, hands);
    if ps == [] {
      StartGood(home, n, elems, threads, hands);
    } else {
      var m, p := Run(home, s0, ps[..|ps| - 1]), ps[|ps| - 1];
      TraceGrows(home, m, p.t, p.ch);
      BenignShorter(home, g, m.trace, Run(home, s0, ps).trace);
      RunGood(home, n, elems, threads, hands, ps[..|ps| - 1]);
      StepGood(home, g, m, p.t, p.ch);
    }
  }

  /** Main theorem.  Every interleaved run of get, set, insert, insertOrSet and eviction whose
      evictions shift safely is linearizable at the last slot lock, and its answers and effects
      are those of a finite map. */
  lemma RunsAreSerial(home: int -> int, n: nat, elems: seq<Elem>, threads: nat, hands: seq<int>, ps: seq<Pick>)
    requires Initial(home, n, elems, threads, hands) && Legal(ps, threads)
    requires Benign(home, Empty(n, elems), Run(home, Start(n, elems, threads, hands), ps).trace)
    ensures var s := Run(home, Start(n, elems, threads, hands), ps);
            Linearizable(home, Empty(n, elems), s.trace, threads) && MapLike(home, Empty(n, elems), s.trace)
  {
    RunGood(home, n, elems, threads, hands, ps);
    var s := Run(home, Start(n, elems, threads, hands), ps);
    forall t | 0 <= t < threads ensures PhaseOf(s.trace, t) != Broken { PhasedNotBroken(s, t); }
  }

  /** The only way to end is a thread that has filled its lock buffer and needs another slot; in
      particular an eviction always finds its element. */
  lemma EndsOnlyInOverruns(home: int -> int, n: nat, elems: seq<Elem>, threads: nat, hands: seq<int>, ps: seq<Pick>,
                           p: Pick)
    requires Initial(home, n, elems, threads, hands) && Legal(ps + [p], threads)
    requires Benign(home, Empty(n, elems), Run(home, Start(n, elems, threads, hands), ps + [p]).trace)
    requires !Run(home, Start(n, elems, threads, hands), ps).ended
    requires Run(home, Start(n, elems, threads, hands), ps + [p]).ended
    ensures var pc := Run(home, Start(n, elems, threads, hands), ps).pcs[p.t]; pc.Take? && |pc.cs| + 1 >= BUFFER
  {
    var g, s0 := Empty(n, elems), Start(n, elems, threads, hands);
    assert (ps + [p])[|ps|] == p && (ps + [p])[..|ps|] == ps;
    var s := Run(home, s0, ps);
    TraceGrows(home, s, p.t, p.ch);
    BenignShorter(home, g, s.trace, Run(home, s0, ps + [p]).trace);
    RunGood(home, n, elems, threads, hands, ps);
    var owner :| Inv(home, s, Replay(home, g, s.trace), owner);
    if s.pcs[p.t].Take? { TakeGood(home, g, s, owner, p.t, p.ch); } else { OtherGood(home, g, s, owner, p.t, p.ch); }
  }

  // ---- no deadlock ----

  /** The thread waits for a slot that somebody has locked. */
  predicate Blocked(s: State, t: int)
    requires 0 <= t < |s.pcs|
  {
    var pc := s.pcs[t];
    (pc.Look? || pc.Take?)
    && var p := At(pc.c.start, |pc.cs|, |s.slots|); 0 <= p < |s.slots| && s.slots[p] == LOCK
  }

  ghost predicate AllBlocked(s: State) {
    forall t {:trigger s.pcs[t]} :: 0 <= t < |s.pcs| ==> s.pcs[t].Idle? || Blocked(s, t)
  }

  /** If all threads wait, a locked slot is occupied and the slot after it is locked too. */
  lemma NextLocked(home: int -> int, s: State, g: Table, owner: seq<int>, p: int)
    requires Inv(home, s, g, owner) && AllBlocked(s) && 0 <= p < |owner| && owner[p] != NOBODY
    ensures g.slots[p] != FREE
    ensures var q := At(p, 1, |owner|); 0 <= q < |owner| && owner[q] != NOBODY
  {
    var n, u := |owner|, owner[p];
    assert SlotOK(s, g, owner, p);
    assert ThreadOK(home, s, g, u) && Owners(s, owner, u);
    assert Holds(s.pcs[u], n, p);
    assert s.pcs[u].Idle? || Blocked(s, u);
    var c, cs := s.pcs[u].c, s.pcs[u].cs;
    Back(c.start, p, n);
    var i := Off(c.start, p, n);
    assert cs[i] == g.slots[p];
    var q := At(p, 1, n);
    assert q == At(c.start, i + 1, n);
    if g.slots[p] == FREE {
      StopAtFree(g.elems, c.op, c.key, Contents(g.slots, c.start, i + 1));
    }
    assert SlotOK(s, g, owner, q);
    if i + 1 < |cs| { assert Holds(s.pcs[u], n, q); }
  }

  lemma {:induction false} AllLocked(home: int -> int, s: State, g: Table, owner: seq<int>, p: int, k: nat)
    requires Inv(home, s, g, owner) && AllBlocked(s) && 0 <= p < |owner| && owner[p] != NOBODY && k < |owner|
    ensures var q := At(p, k, |owner|); 0 <= q < |owner| && owner[q] != NOBODY && g.slots[q] != FREE
  {
    if k == 0 {
      NextLocked(home, s, g, owner, p);
    } else {
      AllLocked(home, s, g, owner, p, k - 1);
      NextLocked(home, s, g, owner, At(p, k - 1, |owner|));
      NextLocked(home, s, g, owner, At(p, k, |owner|));
    }
  }

  /** In every reachable state in which some thread is inside an operation, some such thread
      does not wait: a cycle of waiting threads would have to lock the whole ring in occupied
      slots, but there are fewer elements than slots. */
  lemma NoDeadlock(home: int -> int, n: nat, elems: seq<Elem>, threads: nat, hands: seq<int>, ps: seq<Pick>, t: int)
    requires Initial(home, n, elems, threads, hands) && Legal(ps, threads) && 0 <= t < threads
    requires Benign(home, Empty(n, elems), Run(home, Start(n, elems, threads, hands), ps).trace)
    requires var s := Run(home, Start(n, elems, threads, hands), ps); !s.ended && !s.pcs[t].Idle?
    ensures var s := Run(home, Start(n, elems, threads, hands), ps);
            exists u :: 0 <= u < threads && !s.pcs[u].Idle? && !Blocked(s, u)
  {
    RunGood(home, n, elems, threads, hands, ps);
    var s := Run(home, Start(n, elems, threads, hands), ps);
    var g := Replay(home, Empty(n, elems), s.trace);
    var owner :| Inv(home, s, g, owner);
    if Blocked(s, t) {
      var p := At(s.pcs[t].c.start, |s.pcs[t].cs|, |s.slots|);
      assert SlotOK(s, g, owner, p);
      RingNotFull(home, s, g, owner, p);
    }
  }

  lemma RingNotFull(home: int -> int, s: State, g: Table, owner: seq<int>, p: int)
    requires Inv(home, s, g, owner) && 0 <= p < |owner| && owner[p] != NOBODY
    ensures !AllBlocked(s)
  {
    var i := FreeSlot(g, p);
    if AllBlocked(s) { AllLocked(home, s, g, owner, p, i); }
  }
}
