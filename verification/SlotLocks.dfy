/**
 The index operations of src/LFLRUHashTable.h run by any number of threads: one step per
 atomic load, compare-and-swap or store of a slot of elementLinks.  Plain reads of an element
 whose slot the thread has just locked belong to that step; the plain write of an element is
 a step of its own.
 */
module SlotLocks {
  import opened Index

  const NOBODY := -1
  const BUFFER := 246  // HASH_MAX_LOCK_DEPTH, the number of entries of a lock buffer

  datatype Call = Call(op: Op, key: int, start: int)

  datatype PC =
    | Idle
    | Look(c: Call, cs: seq<int>)             // load the next slot
    | Take(c: Call, cs: seq<int>, seen: int)  // compare-and-swap it
    | Write(c: Call, o: Outcome)              // store key and value of one element
    | Unlock(c: Call, o: Outcome, i: nat)     // store slot i back
    | Return(c: Call, res: Res)

  /** Took marks the step at which an operation has locked its last slot. */
  datatype Event = Invoked(t: int, op: Op) | Took(t: int, op: Op, res: Res) | Returned(t: int, res: Res)

  /** A run has ended when an eviction has not found its element, which aborts, or when a thread is
      about to lock more slots than its buffer has entries.

      hand[e] is the thread that has element e to itself: on its free list, brought along by an
      insertion or taken off the LRU list for eviction. */
  datatype State = State(
    slots: seq<int>, elems: seq<Elem>, pcs: seq<PC>, hand: seq<int>, ended: bool, trace: seq<Event>)

  datatype Choice = Begin(op: Op) | Go | Spurious

  predicate IsInsert(op: Op) { op.Insert? || op.InsertOrSet? }

  predicate CanBegin(s: State, t: int, op: Op) {
    && (IsInsert(op) ==> 0 <= op.e < |s.elems| == |s.hand| && s.hand[op.e] == t)
    && (op.Remove? ==> 0 <= op.e < |s.elems| == |s.hand| && s.hand[op.e] == NOBODY)
  }

  ghost predicate Sized(home: int -> int, s: State) {
    && |s.elems| == |s.hand| && |s.elems| < |s.slots| && |s.elems| <= LOCK
    && Homes(home, |s.slots|)
  }

  function Goto(s: State, t: int, pc: PC): State
    requires 0 <= t < |s.pcs|
  {
    s.(pcs := s.pcs[t := pc])
  }

  function Begins(home: int -> int, s: State, t: int, op: Op): State
    requires 0 <= t < |s.pcs|
  {
    if !CanBegin(s, t, op) then s
    else
      var k := KeyOf(s.elems, op);
      Goto(s, t, Look(Call(op, k, home(k)), [])).(
        hand := if op.Remove? then s.hand[op.e := t] else s.hand,
        trace := s.trace + [Invoked(t, op)])
  }

  /** The slot at p now belongs to thread t; what it does next depends on all it has seen. */
  function Locked(home: int -> int, s: State, t: int, c: Call, cs: seq<int>, p: int): State
    requires 0 <= t < |s.pcs| && 0 <= p < |s.slots|
  {
    var s1 := s.(slots := s.slots[p := LOCK]);
    if Stop(s.elems, c.op, c.key, cs) then
      var o := Finish(s.elems, home, c.op, c.key, c.start, |s.slots|, cs);
      Goto(s1, t, if o.x == NONE then Unlock(c, o, 0) else Write(c, o)).(
        ended := c.op.Remove? && o.res == Refused,
        trace := s.trace + [Took(t, c.op, o.res)])
    else if |cs| >= BUFFER then s1.(ended := true)
    else Goto(s1, t, Look(c, cs))
  }

  function Returns(s: State, t: int, c: Call, res: Res): State
    requires 0 <= t < |s.pcs|
  {
    Goto(s, t, Idle).(
      hand := if IsInsert(c.op) && res == Ok && 0 <= c.op.e < |s.hand| then s.hand[c.op.e := NOBODY] else s.hand,
      trace := s.trace + [Returned(t, res)])
  }

  /** One step of thread t. */
  function Step(home: int -> int, s: State, t: int, ch: Choice): State
    requires 0 <= t < |s.pcs|
  {
    if s.ended then s
    else
      match s.pcs[t]
      case Idle => if ch.Begin? then Begins(home, s, t, ch.op) else s
      case Look(c, cs) =>
        var p := At(c.start, |cs|, |s.slots|);
        if !(0 <= p < |s.slots|) || s.slots[p] == LOCK then s else Goto(s, t, Take(c, cs, s.slots[p]))
      case Take(c, cs, seen) =>
        var p := At(c.start, |cs|, |s.slots|);
        if !(0 <= p < |s.slots|) then s
        else if s.slots[p] == LOCK then Goto(s, t, Look(c, cs))
        else if ch.Spurious? || s.slots[p] != seen then Goto(s, t, Take(c, cs, s.slots[p]))
        else Locked(home, s, t, c, cs + [seen], p)
      case Write(c, o) =>
        if 0 <= o.x < |s.elems| then Goto(s.(elems := s.elems[o.x := o.elem]), t, Unlock(c, o, 0)) else s
      case Unlock(c, o, i) =>
        var p := At(c.start, i, |s.slots|);
        if !(0 <= p < |s.slots|) || i >= |o.cs| then s
        else Goto(s.(slots := s.slots[p := o.cs[i]]), t,
                  if i + 1 == |o.cs| then Return(c, o.res) else Unlock(c, o, i + 1))
      case Return(c, res) => Returns(s, t, c, res)
  }

  /** An empty index; hands says which thread owns which element to begin with. */
  function Start(n: nat, elems: seq<Elem>, threads: nat, hands: seq<int>): State {
    State(seq(n, _ => FREE), elems, seq(threads, _ => Idle), hands, false, [])
  }

  // ---- the serial meaning of a trace ----

  ghost function Replay(home: int -> int, g: Table, trace: seq<Event>): (r: Table)
    requires Homes(home, |g.slots|)
    ensures |r.slots| == |g.slots| && |r.elems| == |g.elems|
  {
    if trace == [] then g
    else
      var r, ev := Replay(home, g, trace[..|trace| - 1]), trace[|trace| - 1];
      if ev.Took? then Apply(r, home, ev.op).t else r
  }

  /** Every operation returned what it returns when run serially at its Took event. */
  ghost predicate Serial(home: int -> int, g: Table, trace: seq<Event>)
    requires Homes(home, |g.slots|)
  {
    forall i {:trigger SerialAt(home, g, trace, i)} :: 0 <= i < |trace| && trace[i].Took? ==>
      SerialAt(home, g, trace, i)
  }

  ghost predicate SerialAt(home: int -> int, g: Table, trace: seq<Event>, i: int)
    requires Homes(home, |g.slots|) && 0 <= i < |trace| && trace[i].Took?
  {
    trace[i].res == Apply(Replay(home, g, trace[..i]), home, trace[i].op).res
  }

  datatype Phase = Quiet | Pending(op: Op) | Decided(op: Op, res: Res) | Broken

  function NextPhase(p: Phase, ev: Event): Phase {
    match ev
    case Invoked(_, op) => if p.Quiet? then Pending(op) else Broken
    case Took(_, op, res) => if p == Pending(op) then Decided(op, res) else Broken
    case Returned(_, res) => if p.Decided? && p.res == res then Quiet else Broken
  }

  /** A thread's own events are calls, each invoked, then taken, then returned with that result. */
  function PhaseOf(trace: seq<Event>, t: int): Phase {
    if trace == [] then Quiet
    else
      var p, ev := PhaseOf(trace[..|trace| - 1], t), trace[|trace| - 1];
      if ev.t == t then NextPhase(p, ev) else p
  }

  /** The trace is equivalent to the serial run of its Took events, each within its own call. */
  ghost predicate Linearizable(home: int -> int, g: Table, trace: seq<Event>, threads: nat)
    requires Homes(home, |g.slots|)
  {
    Serial(home, g, trace) && forall t :: 0 <= t < threads ==> PhaseOf(trace, t) != Broken
  }
}
