/**
 The two-lane queue of src/LFSPSCQueue.h as a step system: one producer, one consumer, one
 step per load, store or compare-and-swap, and per access to a ring slot.  Either thread may
 find itself on any lane: the lane counter it goes by may be stale.
 */
module SpscQueue {
  import opened Sealing

  datatype Lane = Lane(ring: seq<int>, head: int, tail: int)

  /** Where the producer is inside push; cur is the lane counter it goes by, last is set once
      it has moved the counter itself. */
  datatype Producer =
    | Resting
    | LoadCounter(v: int)
    | LoadHead(v: int, cur: nat, last: bool)
    | LoadTail(v: int, cur: nat, last: bool, head: int)
    | WriteSlot(v: int, cur: nat, head: int)
    | StoreHead(v: int, cur: nat, head: int)
    | MoveCounter(v: int, cur: nat)

  /** The consumer inside pop. */
  datatype Consumer =
    | Waiting
    | ReadCounter
    | ReadTail(cur: nat, last: bool)
    | ReadHead(cur: nat, last: bool, tail: int)
    | ReadSlot(cur: nat, tail: int)
    | StoreTail(cur: nat, tail: int, v: int)
    | BumpCounter(cur: nat)

  /** What calls return.  A failed call lists the lanes that were full (or empty) in memory at
      the moment it looked at them. */
  datatype Event =
    | Pushed(lane: int, v: int)
    | PushFailed(full: set<int>)
    | Popped(lane: int, v: int)
    | PopFailed(empty: set<int>)

  datatype State = State(
    counter: nat,
    lanes: seq<Lane>,
    p: Producer,
    c: Consumer,
    full: set<int>,   // lanes seen full in the current push
    empty: set<int>,  // lanes seen empty in the current pop
    log: seq<Event>)

  /** (current + 1) & buffer_mask_, for a buffer of n slots. */
  function Next(x: int, n: int): int { if x + 1 == n then 0 else x + 1 }

  /** next for a power of two, as the source computes it. */
  function Masked(x: bv64, n: bv64): bv64 { (x + 1) & (n - 1) }

  /** The constructor admits powers of two from 2 on, and for these the mask is the successor in
      the ring. */
  lemma MaskIsNext(x: bv64, n: bv64)
    requires n >= 2 && n & (n - 1) == 0 && x < n
    ensures Masked(x, n) == if x + 1 == n then 0 else x + 1
  {}

  function Own(cur: nat): int { cur % 2 }
  function Opposite(cur: nat): int { (cur + 1) % 2 }

  predicate IsFull(k: Lane) { Next(k.head, |k.ring|) == k.tail }
  predicate IsEmpty(k: Lane) { k.tail == k.head }

  function Put(s: State, i: int, k: Lane): State
    requires |s.lanes| == 2 && 0 <= i < 2
  {
    s.(lanes := s.lanes[i := k])
  }

  predicate Shaped(s: State) { |s.lanes| == 2 && |s.lanes[0].ring| == |s.lanes[1].ring| >= 2 }

  function ProducerStep(s: State): State
    requires Shaped(s)
  {
    match s.p
    case Resting => s
    case LoadCounter(v) => s.(p := LoadHead(v, s.counter, false), full := {})
    case LoadHead(v, cur, last) => s.(p := LoadTail(v, cur, last, s.lanes[Own(cur)].head))
    case LoadTail(v, cur, last, head) =>
      var k := s.lanes[Own(cur)];
      var s1 := if IsFull(k) then s.(full := s.full + {Own(cur)}) else s;
      if Next(head, |k.ring|) != k.tail then s1.(p := WriteSlot(v, cur, head))
      else if last then s1.(p := Resting, log := s.log + [PushFailed(s1.full)])
      else s1.(p := MoveCounter(v, cur))
    case WriteSlot(v, cur, head) =>
      var k := s.lanes[Own(cur)];
      if 0 <= head < |k.ring| then Put(s, Own(cur), k.(ring := k.ring[head := v])).(p := StoreHead(v, cur, head)) else s
    case StoreHead(v, cur, head) =>
      var k := s.lanes[Own(cur)];
      Put(s, Own(cur), k.(head := Next(head, |k.ring|))).(p := Resting, log := s.log + [Pushed(Own(cur), v)])
    case MoveCounter(v, cur) =>
      if s.counter == cur then s.(counter := cur + 1, p := LoadHead(v, cur + 1, true))
      else s.(p := LoadCounter(v))
  }

  function ConsumerStep(s: State): State
    requires Shaped(s)
  {
    match s.c
    case Waiting => s
    case ReadCounter => s.(c := ReadTail(s.counter, false), empty := {})
    case ReadTail(cur, last) => s.(c := ReadHead(cur, last, s.lanes[Opposite(cur)].tail))
    case ReadHead(cur, last, tail) =>
      var k := s.lanes[Opposite(cur)];
      var s1 := if IsEmpty(k) then s.(empty := s.empty + {Opposite(cur)}) else s;
      if tail != k.head then s1.(c := ReadSlot(cur, tail))
      else if last then s1.(c := Waiting, log := s.log + [PopFailed(s1.empty)])
      else s1.(c := BumpCounter(cur))
    case ReadSlot(cur, tail) =>
      var k := s.lanes[Opposite(cur)];
      if 0 <= tail < |k.ring| then s.(c := StoreTail(cur, tail, k.ring[tail])) else s
    case StoreTail(cur, tail, v) =>
      var k := s.lanes[Opposite(cur)];
      Put(s, Opposite(cur), k.(tail := Next(tail, |k.ring|))).(c := Waiting, log := s.log + [Popped(Opposite(cur), v)])
    case BumpCounter(cur) =>
      if s.counter == cur then s.(counter := cur + 1, c := ReadTail(cur + 1, true))
      else s.(c := ReadCounter)
  }

  datatype Move = CallPush(v: int) | Produce | CallPop | Consume

  function Step(s: State, m: Move): State
    requires Shaped(s)
  {
    match m
    case CallPush(v) => if s.p.Resting? then s.(p := LoadCounter(v)) else s
    case Produce => ProducerStep(s)
    case CallPop => if s.c.Waiting? then s.(c := ReadCounter) else s
    case Consume => ConsumerStep(s)
  }

  /** The queue the constructor builds; new T[buffer_size] leaves arbitrary slots. */
  ghost predicate Initial(s: State) {
    && Shaped(s) && s.counter == 0 && s.p == Resting && s.c == Waiting && s.log == [] && s.full == s.empty == {}
    && s.lanes[0].head == s.lanes[0].tail == 0 && s.lanes[1].head == s.lanes[1].tail == 0
  }

  lemma StepShaped(s: State, m: Move)
    requires Shaped(s)
    ensures Shaped(Step(s, m)) && |Step(s, m).lanes[0].ring| == |s.lanes[0].ring|
  {}

  ghost function Run(s: State, ms: seq<Move>): (r: State)
    requires Shaped(s)
    ensures Shaped(r) && |r.lanes[0].ring| == |s.lanes[0].ring|
  {
    if ms == [] then s
    else
      var q := Run(s, ms[..|ms| - 1]);
      StepShaped(q, ms[|ms| - 1]);
      Step(q, ms[|ms| - 1])
  }

  // ---- what went in and out of a lane ----

  function PushedTo(log: seq<Event>, i: int): seq<int> {
    if log == [] then []
    else
      var e := log[|log| - 1];
      var before := PushedTo(log[..|log| - 1], i);
      if e.Pushed? && e.lane == i then before + [e.v] else before
  }

  function PoppedFrom(log: seq<Event>, i: int): seq<int> {
    if log == [] then []
    else
      var e := log[|log| - 1];
      var before := PoppedFrom(log[..|log| - 1], i);
      if e.Popped? && e.lane == i then before + [e.v] else before
  }

  lemma LogGrows(log: seq<Event>, e: Event, i: int)
    ensures PushedTo(log + [e], i) == if e.Pushed? && e.lane == i then PushedTo(log, i) + [e.v] else PushedTo(log, i)
    ensures PoppedFrom(log + [e], i) == if e.Popped? && e.lane == i then PoppedFrom(log, i) + [e.v]
            else PoppedFrom(log, i)
  {
    assert (log + [e])[..|log|] == log;
  }

  /** The slot j places after tail. */
  function SlotAt(tail: int, j: int, n: int): int { if tail + j < n then tail + j else tail + j - n }

  function Count(k: Lane): int { if k.head >= k.tail then k.head - k.tail else k.head - k.tail + |k.ring| }

  /** The items in a lane, oldest first. */
  function Items(k: Lane): (r: seq<int>)
    requires 0 <= k.head < |k.ring| && 0 <= k.tail < |k.ring|
    ensures |r| == Count(k)
    ensures forall j {:trigger r[j]} :: 0 <= j < Count(k) ==> r[j] == k.ring[SlotAt(k.tail, j, |k.ring|)]
  {
    seq(Count(k), j requires 0 <= j < Count(k) => k.ring[SlotAt(k.tail, j, |k.ring|)])
  }

  predicate LaneOk(k: Lane, n: int) { |k.ring| == n && 0 <= k.head < n && 0 <= k.tail < n }

  /** What was popped from a lane, followed by what is in it, is what was pushed to it. */
  ghost predicate Conserved(s: State, i: int)
    requires Shaped(s) && 0 <= i < 2 && LaneOk(s.lanes[i], |s.lanes[0].ring|)
  {
    PushedTo(s.log, i) == PoppedFrom(s.log, i) + Items(s.lanes[i])
  }

  ghost predicate ProducerOk(s: State)
    requires Shaped(s)
  {
    match s.p
    case LoadTail(_, cur, last, head) => head == s.lanes[Own(cur)].head && (last ==> Opposite(cur) in s.full)
    case LoadHead(_, cur, last) => last ==> Opposite(cur) in s.full
    case WriteSlot(_, cur, head) => head == s.lanes[Own(cur)].head && Count(s.lanes[Own(cur)]) < |s.lanes[0].ring| - 1
    case StoreHead(v, cur, head) =>
      var k := s.lanes[Own(cur)];
      head == k.head && Count(k) < |k.ring| - 1 && 0 <= head < |k.ring| && k.ring[head] == v
    case MoveCounter(_, cur) => Own(cur) in s.full
    case _ => true
  }

  ghost predicate ConsumerOk(s: State)
    requires Shaped(s)
  {
    match s.c
    case ReadHead(cur, last, tail) => tail == s.lanes[Opposite(cur)].tail && (last ==> Own(cur) in s.empty)
    case ReadTail(cur, last) => last ==> Own(cur) in s.empty
    case ReadSlot(cur, tail) => tail == s.lanes[Opposite(cur)].tail && Count(s.lanes[Opposite(cur)]) > 0
    case StoreTail(cur, tail, v) =>
      var k := s.lanes[Opposite(cur)];
      tail == k.tail && Count(k) > 0 && 0 <= tail < |k.ring| && k.ring[tail] == v
    case BumpCounter(cur) => Opposite(cur) in s.empty
    case _ => true
  }

  ghost predicate FailuresSeen(log: seq<Event>) {
    forall i {:trigger log[i]} :: 0 <= i < |log| ==>
      (log[i].PushFailed? ==> log[i].full == {0, 1}) && (log[i].PopFailed? ==> log[i].empty == {0, 1})
  }

  ghost predicate Inv(s: State) {
    && Shaped(s)
    && LaneOk(s.lanes[0], |s.lanes[0].ring|) && LaneOk(s.lanes[1], |s.lanes[0].ring|)
    && Conserved(s, 0) && Conserved(s, 1)
    && s.full <= {0, 1} && s.empty <= {0, 1}
    && ProducerOk(s) && ConsumerOk(s) && FailuresSeen(s.log)
  }

  // ---- lanes ----

  lemma WriteKeeps(k: Lane, v: int)
    requires LaneOk(k, |k.ring|) && |k.ring| >= 2 && Count(k) < |k.ring| - 1
    ensures var k' := k.(ring := k.ring[k.head := v]);
            Items(k') == Items(k) && (Count(k) > 0 ==> k'.ring[k.tail] == k.ring[k.tail])
  {}

  lemma PublishAdds(k: Lane)
    requires LaneOk(k, |k.ring|) && |k.ring| >= 2 && Count(k) < |k.ring| - 1
    ensures var k' := k.(head := Next(k.head, |k.ring|));
            LaneOk(k', |k.ring|) && Items(k') == Items(k) + [k.ring[k.head]] && Count(k') == Count(k) + 1
  {}

  lemma TakeDrops(k: Lane)
    requires LaneOk(k, |k.ring|) && |k.ring| >= 2 && Count(k) > 0
    ensures var k' := k.(tail := Next(k.tail, |k.ring|));
            LaneOk(k', |k.ring|) && Items(k) == [k.ring[k.tail]] + Items(k') && Count(k') == Count(k) - 1
  {
    var k' := k.(tail := Next(k.tail, |k.ring|));
    assert Items(k)[0] == k.ring[k.tail];
    forall j | 0 <= j < Count(k') ensures Items(k')[j] == Items(k)[j + 1] {}
  }

  lemma FullMeans(k: Lane)
    requires LaneOk(k, |k.ring|) && |k.ring| >= 2
    ensures 0 <= Count(k) <= |k.ring| - 1
    ensures IsFull(k) <==> Count(k) == |k.ring| - 1
    ensures IsEmpty(k) <==> Count(k) == 0
  {}

  // ---- every step keeps the invariant ----

  lemma LogOnly(s: State, e: Event)
    requires Inv(s) && !e.Pushed? && !e.Popped?
    requires (e.PushFailed? ==> e.full == {0, 1}) && (e.PopFailed? ==> e.empty == {0, 1})
    ensures forall i :: 0 <= i < 2 ==>
              PushedTo(s.log + [e], i) == PushedTo(s.log, i) && PoppedFrom(s.log + [e], i) == PoppedFrom(s.log, i)
    ensures FailuresSeen(s.log + [e])
  {
    LogGrows(s.log, e, 0);
    LogGrows(s.log, e, 1);
  }

  lemma WriteStep(s: State)
    requires Inv(s) && s.p.WriteSlot?
    ensures Inv(ProducerStep(s))
  {
    FullMeans(s.lanes[0]);
    FullMeans(s.lanes[1]);
    WriteKeeps(s.lanes[Own(s.p.cur)], s.p.v);
  }

  lemma PublishStep(s: State)
    requires Inv(s) && s.p.StoreHead?
    ensures Inv(ProducerStep(s))
  {
    var i := Own(s.p.cur);
    FullMeans(s.lanes[0]);
    FullMeans(s.lanes[1]);
    PublishAdds(s.lanes[i]);
    PublishLogged(s.log, s.lanes[i], i, |s.lanes[0].ring|);
    LogGrows(s.log, Pushed(i, s.p.v), 1 - i);
    assert ProducerStep(s).log == s.log + [Pushed(i, s.p.v)];
  }

  /** Publishing the item written to lane i, as the log sees it. */
  lemma PublishLogged(log: seq<Event>, k: Lane, i: int, n: int)
    requires n >= 2 && LaneOk(k, n) && Count(k) < n - 1 && PushedTo(log, i) == PoppedFrom(log, i) + Items(k)
    ensures var e, k' := Pushed(i, k.ring[k.head]), k.(head := Next(k.head, n));
            LaneOk(k', n) && PushedTo(log + [e], i) == PoppedFrom(log + [e], i) + Items(k')
  {
    PublishAdds(k);
    var v := k.ring[k.head];
    LogGrows(log, Pushed(i, v), i);
    assert PoppedFrom(log, i) + (Items(k) + [v]) == PoppedFrom(log, i) + Items(k) + [v];
  }

  /** Only the thread's own place changes. */
  lemma QuietProducerStep(s: State)
    requires Inv(s) && !s.p.WriteSlot? && !s.p.StoreHead? && !s.p.LoadTail?
    ensures Inv(ProducerStep(s))
  {}

  lemma LookStep(s: State)
    requires Inv(s) && s.p.LoadTail?
    ensures Inv(ProducerStep(s))
  {
    FullMeans(s.lanes[Own(s.p.cur)]);
    var s' := ProducerStep(s);
    if s'.p.Resting? {
      assert s'.full == {0, 1};
      LogOnly(s, PushFailed(s'.full));
    }
  }

  /** Taking the oldest item of lane i, as the log sees it. */
  lemma TakeLogged(log: seq<Event>, k: Lane, i: int, n: int)
    requires n >= 2 && LaneOk(k, n) && Count(k) > 0 && PushedTo(log, i) == PoppedFrom(log, i) + Items(k)
    ensures var e, k' := Popped(i, k.ring[k.tail]), k.(tail := Next(k.tail, n));
            LaneOk(k', n) && PushedTo(log + [e], i) == PoppedFrom(log + [e], i) + Items(k')
  {
    TakeDrops(k);
    var v, k' := k.ring[k.tail], k.(tail := Next(k.tail, n));
    LogGrows(log, Popped(i, v), i);
    assert PoppedFrom(log, i) + ([v] + Items(k')) == PoppedFrom(log, i) + [v] + Items(k');
  }

  lemma TakeConserves(s: State)
    requires Inv(s) && s.c.StoreTail?
    ensures var s' := ConsumerStep(s);
            && Shaped(s') && LaneOk(s'.lanes[0], |s.lanes[0].ring|) && LaneOk(s'.lanes[1], |s.lanes[0].ring|)
            && |s'.lanes[0].ring| == |s.lanes[0].ring| && Conserved(s', 0) && Conserved(s', 1)
            && FailuresSeen(s'.log)
  {
    var i := Opposite(s.c.cur);
    TakeLogged(s.log, s.lanes[i], i, |s.lanes[0].ring|);
    LogGrows(s.log, Popped(i, s.c.v), 1 - i);
    assert ConsumerStep(s).log == s.log + [Popped(i, s.c.v)];
  }

  lemma TakeStep(s: State)
    requires Inv(s) && s.c.StoreTail?
    ensures Inv(ConsumerStep(s))
  {
    TakeConserves(s);
    TakeDrops(s.lanes[Opposite(s.c.cur)]);
  }

  lemma QuietConsumerStep(s: State)
    requires Inv(s) && !s.c.StoreTail? && !s.c.ReadHead? && !s.c.ReadSlot?
    ensures Inv(ConsumerStep(s))
  {}

  lemma ReadStep(s: State)
    requires Inv(s) && s.c.ReadSlot?
    ensures Inv(ConsumerStep(s))
  {}

  lemma PeekStep(s: State)
    requires Inv(s) && s.c.ReadHead?
    ensures Inv(ConsumerStep(s))
  {
    FullMeans(s.lanes[Opposite(s.c.cur)]);
    var s' := ConsumerStep(s);
    if s'.c.Waiting? {
      assert s'.empty == {0, 1};
      LogOnly(s, PopFailed(s'.empty));
    }
  }

  lemma ProduceInv(s: State)
    requires Inv(s)
    ensures Inv(ProducerStep(s))
  {
    match s.p
    case WriteSlot(_, _, _) => WriteStep(s);
    case StoreHead(_, _, _) => PublishStep(s);
    case LoadTail(_, _, _, _) => LookStep(s);
    case _ => QuietProducerStep(s);
  }

  lemma ConsumeInv(s: State)
    requires Inv(s)
    ensures Inv(ConsumerStep(s))
  {
    match s.c
    case StoreTail(_, _, _) => TakeStep(s);
    case ReadHead(_, _, _) => PeekStep(s);
    case ReadSlot(_, _) => ReadStep(s);
    case _ => QuietConsumerStep(s);
  }

  lemma StepInv(s: State, m: Move)
    requires Inv(s)
    ensures Inv(Step(s, m))
  {
    match m
    case Produce => ProduceInv(s);
    case Consume => ConsumeInv(s);
    case _ =>
  }

  lemma {:induction false} RunInv(s: State, ms: seq<Move>)
    requires Initial(s)
    ensures Inv(Run(s, ms))
  {
    if ms == [] {
      assert Items(s.lanes[0]) == [] && Items(s.lanes[1]) == [];
    } else {
      RunInv(s, ms[..|ms| - 1]);
      StepInv(Run(s, ms[..|ms| - 1]), ms[|ms| - 1]);
    }
  }

  // ---- the theorems ----

  /** In every interleaving each lane is first in, first out, and loses or repeats nothing:
      what came out and what is in it, in order, is what went in. */
  lemma LanesAreFifo(s: State, ms: seq<Move>, i: int)
    requires Initial(s) && 0 <= i < 2
    ensures var r := Run(s, ms);
            && LaneOk(r.lanes[i], |r.lanes[0].ring|)
            && PushedTo(r.log, i) == PoppedFrom(r.log, i) + Items(r.lanes[i])
            && |Items(r.lanes[i])| <= |r.lanes[0].ring| - 1
  {
    RunInv(s, ms);
    FullMeans(Run(s, ms).lanes[i]);
  }

  /** A slot is never written while it is being read. */
  lemma NoTornReads(s: State, ms: seq<Move>)
    requires Initial(s)
    ensures var r := Run(s, ms);
            r.p.WriteSlot? && r.c.ReadSlot? && Own(r.p.cur) == Opposite(r.c.cur) ==> r.p.head != r.c.tail
  {
    RunInv(s, ms);
  }

  /** The value a pop is about to return is the oldest one in its lane, and slots stay in range. */
  lemma AccessesInRange(s: State, ms: seq<Move>)
    requires Initial(s)
    ensures var r := Run(s, ms);
            && (r.p.WriteSlot? ==> 0 <= r.p.head < |r.lanes[Own(r.p.cur)].ring|)
            && (r.c.ReadSlot? ==> 0 <= r.c.tail < |r.lanes[Opposite(r.c.cur)].ring|)
            && LaneOk(r.lanes[0], |r.lanes[0].ring|) && LaneOk(r.lanes[1], |r.lanes[0].ring|)
            && (r.c.StoreTail? ==>
                |Items(r.lanes[Opposite(r.c.cur)])| > 0 && r.c.v == Items(r.lanes[Opposite(r.c.cur)])[0])
  {
    RunInv(s, ms);
    InRange(Run(s, ms));
  }

  lemma InRange(r: State)
    requires Inv(r)
    ensures r.p.WriteSlot? ==> 0 <= r.p.head < |r.lanes[Own(r.p.cur)].ring|
    ensures r.c.ReadSlot? ==> 0 <= r.c.tail < |r.lanes[Opposite(r.c.cur)].ring|
    ensures r.c.StoreTail? ==> |Items(r.lanes[Opposite(r.c.cur)])| > 0 && r.c.v == Items(r.lanes[Opposite(r.c.cur)])[0]
  {
    if r.c.StoreTail? { OldestFirst(r.lanes[Opposite(r.c.cur)]); }
  }

  lemma OldestFirst(k: Lane)
    requires LaneOk(k, |k.ring|) && Count(k) > 0
    ensures |Items(k)| > 0 && Items(k)[0] == k.ring[k.tail]
  {}

  /** A push that failed saw each lane full during the call, and a pop that failed saw each empty. */
  lemma FailuresAreJustified(s: State, ms: seq<Move>, i: int)
    requires Initial(s) && 0 <= i < |Run(s, ms).log|
    ensures var e := Run(s, ms).log[i];
            (e.PushFailed? ==> e.full == {0, 1}) && (e.PopFailed? ==> e.empty == {0, 1})
  {
    RunInv(s, ms);
  }

  // ---- one call at a time ----

  /** The producer runs on alone, to the end of its call if k steps are enough. */
  ghost function ProduceOn(s: State, k: nat): (r: State)
    requires Shaped(s)
    ensures Shaped(r)
    decreases k
  {
    if k == 0 || s.p.Resting? then s
    else
      StepShaped(s, Produce);
      ProduceOn(ProducerStep(s), k - 1)
  }

  ghost function ConsumeOn(s: State, k: nat): (r: State)
    requires Shaped(s)
    ensures Shaped(r)
    decreases k
  {
    if k == 0 || s.c.Waiting? then s
    else
      StepShaped(s, Consume);
      ConsumeOn(ConsumerStep(s), k - 1)
  }

  /** `Inv`, unfolded only where `KeptIs` calls for it. */
  ghost predicate Kept(s: State) {
    forall u {:trigger Look(u)} :: Look(u) ==> Inv(s)
  }

  lemma KeptIs(s: State)
    ensures Kept(s) <==> Inv(s)
  {
    assert Look(0);
  }

  lemma StepKept(s: State, m: Move)
    requires Kept(s) && Shaped(s)
    ensures Kept(Step(s, m)) && Shaped(Step(s, m)) && |Step(s, m).lanes[0].ring| == |s.lanes[0].ring|
  {
    KeptIs(s);
    StepInv(s, m);
    StepShaped(s, m);
    KeptIs(Step(s, m));
  }

  ghost predicate Quiet(s: State) { Kept(s) && Shaped(s) && s.p.Resting? && s.c.Waiting? }

  lemma CountsAre(s: State)
    requires Kept(s) && Shaped(s)
    ensures 0 <= Count(s.lanes[0]) <= |s.lanes[0].ring| - 1 && 0 <= Count(s.lanes[1]) <= |s.lanes[0].ring| - 1
  {
    KeptIs(s);
    FullMeans(s.lanes[0]);
    FullMeans(s.lanes[1]);
  }

  lemma LaneFits(s: State, i: int)
    requires Kept(s) && Shaped(s) && 0 <= i < 2
    ensures LaneOk(s.lanes[i], |s.lanes[0].ring|) && LaneOk(s.lanes[i], |s.lanes[i].ring|)
    ensures |Items(s.lanes[i])| == Count(s.lanes[i])
  {
    KeptIs(s);
  }

  function Total(s: State): int
    requires Shaped(s)
  {
    Count(s.lanes[0]) + Count(s.lanes[1])
  }

  /** Writing and publishing, once a lane with room is found. */
  lemma PushLands(s: State, k: nat)
    requires Kept(s) && Shaped(s) && s.p.WriteSlot? && s.c.Waiting? && k >= 2
    ensures var r := ProduceOn(s, k);
            && Quiet(r) && r.log == s.log + [Pushed(Own(s.p.cur), s.p.v)] && r.counter == s.counter
            && Total(r) == Total(s) + 1 && |r.lanes[0].ring| == |s.lanes[0].ring|
  {
    var a := PushWrites(s);
    var b := PushPublishes(a);
    assert ProduceOn(s, k) == ProduceOn(a, k - 1) == ProduceOn(b, k - 2) == b;
  }

  lemma PushWrites(s: State) returns (a: State)
    requires Kept(s) && Shaped(s) && s.p.WriteSlot? && s.c.Waiting?
    ensures a == ProducerStep(s) && Kept(a) && Shaped(a) && a.c.Waiting? && a.log == s.log && a.counter == s.counter
    ensures a.p == StoreHead(s.p.v, s.p.cur, s.p.head) && |a.lanes[0].ring| == |s.lanes[0].ring| && Total(a) == Total(s)
  {
    StepKept(s, Produce);
    KeptIs(s);
    a := ProducerStep(s);
    FullMeans(s.lanes[Own(s.p.cur)]);
  }

  lemma PushPublishes(a: State) returns (b: State)
    requires Kept(a) && Shaped(a) && a.p.StoreHead? && a.c.Waiting?
    ensures b == ProducerStep(a) && Quiet(b) && b.log == a.log + [Pushed(Own(a.p.cur), a.p.v)]
    ensures Total(b) == Total(a) + 1 && |b.lanes[0].ring| == |a.lanes[0].ring| && b.counter == a.counter
  {
    StepKept(a, Produce);
    KeptIs(a);
    b := ProducerStep(a);
    PublishAdds(a.lanes[Own(a.p.cur)]);
  }

  /** Looking at one lane: two steps to a write or, if it is full, past it. */
  lemma PushLooks(s: State, k: nat) returns (r: State)
    requires k >= 2 && Kept(s) && Shaped(s) && s.p.LoadHead? && s.c.Waiting?
    ensures Kept(r) && Shaped(r) && r.lanes == s.lanes && r.counter == s.counter
    ensures r.c.Waiting?
    ensures ProduceOn(s, k) == ProduceOn(r, k - 2)
    ensures var cur, v := s.p.cur, s.p.v;
            if Count(s.lanes[Own(cur)]) < |s.lanes[0].ring| - 1
              then r.p == WriteSlot(v, cur, s.lanes[Own(cur)].head) && r.log == s.log
            else if s.p.last then r.p == Resting && r.log == s.log + [PushFailed(r.full)]
            else r.p == MoveCounter(v, cur) && r.log == s.log
  {
    KeptIs(s);
    StepInv(s, Produce);
    var a := ProducerStep(s);
    StepInv(a, Produce);
    r := ProducerStep(a);
    KeptIs(r);
    FullMeans(s.lanes[Own(s.p.cur)]);
    assert ProduceOn(s, k) == ProduceOn(a, k - 1);
  }

  lemma BothLanes(s: State, cur: nat)
    requires Shaped(s)
    ensures Total(s) == Count(s.lanes[Own(cur)]) + Count(s.lanes[Opposite(cur)])
    ensures Own(cur + 1) == Opposite(cur) && Opposite(cur + 1) == Own(cur)
  {}

  lemma PushSeesFull(s: State, k: nat) returns (r: State)
    requires k >= 2 && Kept(s) && Shaped(s) && s.p.LoadHead? && s.c.Waiting? && s.p.last
    requires Count(s.lanes[Own(s.p.cur)]) >= |s.lanes[0].ring| - 1
    ensures Quiet(r) && r.lanes == s.lanes && r.log == s.log + [PushFailed({0, 1})] && r.counter == s.counter
    ensures ProduceOn(s, k) == r
  {
    r := PushLooks(s, k);
    KeptIs(r);
    assert r.log[|s.log|] == PushFailed(r.full);
    assert ProduceOn(r, k - 2) == r;
  }

  lemma PushSeesRoom(s: State, k: nat)
    requires Kept(s) && Shaped(s) && s.p.LoadHead? && s.c.Waiting?
    requires Count(s.lanes[Own(s.p.cur)]) < |s.lanes[0].ring| - 1 && k >= 4
    ensures var r := ProduceOn(s, k);
            && Quiet(r) && r.log == s.log + [Pushed(Own(s.p.cur), s.p.v)] && r.counter == s.counter
            && Total(r) == Total(s) + 1 && |r.lanes[0].ring| == |s.lanes[0].ring|
  {
    var r := PushLooks(s, k);
    PushLands(r, k - 2);
  }

  lemma PushMoves(s: State, k: nat) returns (d: State)
    requires k >= 1 && Kept(s) && Shaped(s) && s.p.MoveCounter? && s.c.Waiting? && s.counter == s.p.cur
    ensures Kept(d) && Shaped(d) && d.c.Waiting? && d.lanes == s.lanes && d.log == s.log && d.counter == s.counter + 1
    ensures d.p == LoadHead(s.p.v, s.p.cur + 1, true) && ProduceOn(s, k) == ProduceOn(d, k - 1)
  {
    StepKept(s, Produce);
    d := ProducerStep(s);
  }

  /** The first lane was full: move the counter and look at the other, lane i. */
  lemma PushTurns(s: State, k: nat, i: int)
    requires k >= 5 && Kept(s) && Shaped(s) && s.p.MoveCounter? && s.c.Waiting? && s.counter == s.p.cur
    requires i == Opposite(s.p.cur) == Own(s.p.cur + 1)
    ensures var n, r := |s.lanes[0].ring|, ProduceOn(s, k);
            && Quiet(r) && |r.lanes[0].ring| == n && r.counter == s.counter + 1
            && r.log == s.log + [if Count(s.lanes[i]) < n - 1 then Pushed(i, s.p.v) else PushFailed({0, 1})]
            && Total(r) == Total(s) + if Count(s.lanes[i]) < n - 1 then 1 else 0
  {
    var d := PushMoves(s, k);
    if Count(s.lanes[i]) < |s.lanes[0].ring| - 1 {
      PushSeesRoom(d, k - 1);
    } else {
      var e := PushSeesFull(d, k - 1);
    }
  }

  /** The call and the load of the counter. */
  lemma PushCalls(s: State, v: int, k: nat) returns (b: State)
    requires k >= 1 && Quiet(s)
    ensures Kept(b) && Shaped(b) && b.c.Waiting? && b.lanes == s.lanes && b.log == s.log
    ensures b.counter == s.counter && b.p == LoadHead(v, b.counter, false) && Shaped(Step(s, CallPush(v)))
    ensures ProduceOn(Step(s, CallPush(v)), k) == ProduceOn(b, k - 1)
  {
    StepKept(s, CallPush(v));
    var a := Step(s, CallPush(v));
    StepKept(a, Produce);
    b := ProducerStep(a);
  }

  /** Where a push with no pop under way lands: on the lane of the counter if that has room, else on
      the other, else nowhere. */
  function Landing(s: State, v: int): Event
    requires Shaped(s)
  {
    var n, i := |s.lanes[0].ring|, Own(s.counter);
    if Count(s.lanes[i]) < n - 1 then Pushed(i, v)
    else if Count(s.lanes[1 - i]) < n - 1 then Pushed(1 - i, v)
    else PushFailed({0, 1})
  }

  /** The items of lane i, nothing more and nothing less. */
  ghost predicate HoldsItems(s: State, i: int, items: seq<int>) {
    && Shaped(s) && 0 <= i < 2 && LaneOk(s.lanes[i], |s.lanes[0].ring|)
    && Items(s.lanes[i]) == items
  }

  lemma LaneLog(s: State, i: int)
    requires Quiet(s) && 0 <= i < 2
    ensures LaneOk(s.lanes[i], |s.lanes[0].ring|) && LaneOk(s.lanes[i], |s.lanes[i].ring|)
    ensures PushedTo(s.log, i) == PoppedFrom(s.log, i) + Items(s.lanes[i])
  {
    KeptIs(s);
  }

  /** The items of a lane once e is logged. */
  function ItemsAfter(items: seq<int>, e: Event, i: int): seq<int> {
    if e.Pushed? && e.lane == i then items + [e.v]
    else if e.Popped? && e.lane == i && items != [] then items[1..]
    else items
  }

  lemma LogTells(log: seq<Event>, e: Event, i: int, items: seq<int>, items': seq<int>)
    requires PushedTo(log, i) == PoppedFrom(log, i) + items
    requires PushedTo(log + [e], i) == PoppedFrom(log + [e], i) + items'
    requires e.Popped? && e.lane == i ==> items != [] && e.v == items[0]
    ensures items' == ItemsAfter(items, e, i)
  {
    LogGrows(log, e, i);
    if e.Pushed? && e.lane == i {
      PushTells(PoppedFrom(log, i), items, e.v, items');
    } else if e.Popped? && e.lane == i {
      PopTells(PoppedFrom(log, i), items, e.v, items');
    } else {
      SameRest(PoppedFrom(log, i), items, items');
    }
  }

  lemma PushTells(b: seq<int>, items: seq<int>, v: int, items': seq<int>)
    requires b + items + [v] == b + items'
    ensures items' == items + [v]
  {
    assert b + items + [v] == b + (items + [v]);
    SameRest(b, items + [v], items');
  }

  lemma PopTells(b: seq<int>, items: seq<int>, v: int, items': seq<int>)
    requires items != [] && items[0] == v && b + items == (b + [v]) + items'
    ensures items' == items[1..]
  {
    assert b + items == (b + [v]) + items[1..];
    SameRest(b + [v], items[1..], items');
  }

  /** The log tells the items: a call that logs e changes the lanes as e says. */
  lemma ItemsFollow(s: State, r: State, e: Event, i: int)
    requires Quiet(s) && Quiet(r) && r.log == s.log + [e] && 0 <= i < 2
    requires LaneOk(s.lanes[i], |s.lanes[0].ring|)
    requires e.Popped? && e.lane == i ==> Items(s.lanes[i]) != [] && e.v == Items(s.lanes[i])[0]
    ensures HoldsItems(r, i, ItemsAfter(Items(s.lanes[i]), e, i))
  {
    LaneLog(s, i);
    LaneLog(r, i);
    LogTells(s.log, e, i, Items(s.lanes[i]), Items(r.lanes[i]));
  }

  lemma SameRest(b: seq<int>, x: seq<int>, y: seq<int>)
    requires b + x == b + y
    ensures x == y
  {
    assert x == (b + x)[|b|..] && y == (b + y)[|b|..];
  }

  /** A push with no pop under way: it lands as `Landing` says, adds its value to that lane alone and
      moves the counter exactly when the lane it names is full.  So it succeeds exactly when the two
      lanes are not both full: the queue holds 2 * (n - 1) items and no more. */
  lemma PushAlone(s: State, v: int, k: nat)
    requires k >= 8 && Quiet(s)
    ensures var n, r := |s.lanes[0].ring|, ProduceOn(Step(s, CallPush(v)), k);
            && Quiet(r) && |r.lanes[0].ring| == n && r.log == s.log + [Landing(s, v)]
            && r.counter == s.counter + (if Landing(s, v) == Pushed(Own(s.counter), v) then 0 else 1)
            && (Landing(s, v).Pushed? <==> Total(s) < 2 * (n - 1))
            && Total(r) == Total(s) + if Total(s) < 2 * (n - 1) then 1 else 0
  {
    var b := PushCalls(s, v, k);
    var c := PushLooks(b, k - 1);
    CountsAre(s);
    BothLanes(s, s.counter);
    if c.p.WriteSlot? { PushLands(c, k - 3); } else { PushTurns(c, k - 3, Opposite(s.counter)); }
  }

  lemma PushedItems(s: State, v: int, k: nat, i: int)
    requires k >= 8 && Quiet(s) && 0 <= i < 2
    ensures LaneOk(s.lanes[i], |s.lanes[0].ring|)
    ensures HoldsItems(ProduceOn(Step(s, CallPush(v)), k), i,
                       Items(s.lanes[i]) + if Landing(s, v) == Pushed(i, v) then [v] else [])
  {
    PushAlone(s, v, k);
    LaneLog(s, i);
    ItemsFollow(s, ProduceOn(Step(s, CallPush(v)), k), Landing(s, v), i);
    assert Items(s.lanes[i]) + [] == Items(s.lanes[i]);
  }

  /** One push after the other, each given k steps. */
  ghost function PushAll(s: State, vs: seq<int>, k: nat): (r: State)
    requires Shaped(s)
    ensures Shaped(r)
  {
    if vs == [] then s else ProduceOn(Step(PushAll(s, vs[..|vs| - 1], k), CallPush(vs[|vs| - 1])), k)
  }

  /** Pushes into a new queue: the first 2 * (n - 1) succeed and all later ones fail. */
  lemma {:induction false} Capacity(s: State, vs: seq<int>, k: nat)
    requires Initial(s) && k >= 8
    ensures var n, r := |s.lanes[0].ring|, PushAll(s, vs, k);
            && Quiet(r) && |r.lanes[0].ring| == n && |r.log| == |vs|
            && Total(r) == (if |vs| < 2 * (n - 1) then |vs| else 2 * (n - 1))
            && forall i {:trigger r.log[i]} :: 0 <= i < |vs| ==>
                 if i < 2 * (n - 1) then r.log[i].Pushed? && r.log[i].v == vs[i] else r.log[i].PushFailed?
  {
    if vs == [] {
      RunInv(s, []);
      KeptIs(s);
    } else {
      var m := |vs| - 1;
      Capacity(s, vs[..m], k);
      var q := PushAll(s, vs[..m], k);
      PushAlone(q, vs[m], k);
      var r := PushAll(s, vs, k);
      forall i | 0 <= i < |vs|
        ensures if i < 2 * (|s.lanes[0].ring| - 1) then r.log[i].Pushed? && r.log[i].v == vs[i]
                else r.log[i].PushFailed?
      {
        if i < m { assert r.log[i] == r.log[..m][i] == q.log[i]; }
      }
    }
  }

  // ---- and pops ----

  lemma PopTakes(s: State)
    requires Kept(s) && Shaped(s) && s.c.ReadSlot?
    ensures var k, i := s.lanes[Opposite(s.c.cur)], Opposite(s.c.cur);
            && 0 <= k.tail < |k.ring| == |s.lanes[0].ring| && s.c.tail == k.tail
            && LaneOk(k, |k.ring|) && |Items(k)| > 0 && Items(k)[0] == k.ring[k.tail]
            && Count(k.(tail := Next(k.tail, |k.ring|))) == Count(k) - 1
  {
    KeptIs(s);
    TakeDrops(s.lanes[Opposite(s.c.cur)]);
  }

  lemma PopLands(s: State, k: nat)
    requires Kept(s) && Shaped(s) && s.c.ReadSlot? && s.p.Resting? && k >= 2
    ensures var r := ConsumeOn(s, k);
            && Quiet(r) && Total(r) == Total(s) - 1 && r.counter == s.counter
            && var k := s.lanes[Opposite(s.c.cur)];
               LaneOk(k, |k.ring|) && |Items(k)| > 0 && r.log == s.log + [Popped(Opposite(s.c.cur), Items(k)[0])]
  {
    var a := ConsumerStep(s);
    StepKept(s, Consume);
    var b := ConsumerStep(a);
    StepKept(a, Consume);
    PopTakes(s);
    assert ConsumeOn(a, k - 1) == ConsumeOn(b, k - 2) == b;
  }

  lemma PopLooks(s: State, k: nat) returns (r: State)
    requires k >= 2 && Kept(s) && Shaped(s) && s.c.ReadTail? && s.p.Resting?
    ensures Kept(r) && Shaped(r) && r.lanes == s.lanes && r.counter == s.counter
    ensures r.p.Resting?
    ensures ConsumeOn(s, k) == ConsumeOn(r, k - 2)
    ensures var cur := s.c.cur;
            if Count(s.lanes[Opposite(cur)]) > 0 then r.c == ReadSlot(cur, s.lanes[Opposite(cur)].tail)
              && r.log == s.log
            else if s.c.last then r.c == Waiting && r.log == s.log + [PopFailed(r.empty)]
            else r.c == BumpCounter(cur) && r.log == s.log
  {
    KeptIs(s);
    StepInv(s, Consume);
    var a := ConsumerStep(s);
    StepInv(a, Consume);
    r := ConsumerStep(a);
    KeptIs(r);
    FullMeans(s.lanes[Opposite(s.c.cur)]);
    assert ConsumeOn(s, k) == ConsumeOn(a, k - 1);
  }

  lemma PopSeesNone(s: State, k: nat) returns (r: State)
    requires k >= 2 && Kept(s) && Shaped(s) && s.c.ReadTail? && s.p.Resting? && s.c.last
    requires Count(s.lanes[Opposite(s.c.cur)]) <= 0
    ensures Quiet(r) && r.lanes == s.lanes && r.log == s.log + [PopFailed({0, 1})] && r.counter == s.counter
    ensures ConsumeOn(s, k) == r
  {
    r := PopLooks(s, k);
    KeptIs(r);
    assert r.log[|s.log|] == PopFailed(r.empty);
    assert ConsumeOn(r, k - 2) == r;
  }

  lemma PopSeesSome(s: State, k: nat)
    requires Kept(s) && Shaped(s) && s.c.ReadTail? && s.p.Resting? && Count(s.lanes[Opposite(s.c.cur)]) > 0 && k >= 4
    ensures var r, x := ConsumeOn(s, k), s.lanes[Opposite(s.c.cur)];
            && Quiet(r) && Total(r) == Total(s) - 1 && r.counter == s.counter
            && LaneOk(x, |x.ring|) && |Items(x)| > 0 && r.log == s.log + [Popped(Opposite(s.c.cur), Items(x)[0])]
  {
    var r := PopLooks(s, k);
    PopLands(r, k - 2);
  }

  lemma PopBumps(s: State, k: nat) returns (d: State)
    requires k >= 1 && Kept(s) && Shaped(s) && s.c.BumpCounter? && s.p.Resting? && s.counter == s.c.cur
    ensures Kept(d) && Shaped(d) && d.p.Resting? && d.lanes == s.lanes && d.log == s.log && d.counter == s.counter + 1
    ensures d.c == ReadTail(s.c.cur + 1, true) && ConsumeOn(s, k) == ConsumeOn(d, k - 1)
  {
    StepKept(s, Consume);
    d := ConsumerStep(s);
  }

  /** The first lane was empty: move the counter and look at the other, lane i. */
  lemma PopTurns(s: State, k: nat, i: int)
    requires k >= 5 && Kept(s) && Shaped(s) && s.c.BumpCounter? && s.p.Resting? && s.counter == s.c.cur
    requires i == Own(s.c.cur) == Opposite(s.c.cur + 1) && Count(s.lanes[1 - i]) == 0
    ensures var r, x := ConsumeOn(s, k), s.lanes[i];
            && Quiet(r) && r.counter == s.counter + 1 && LaneOk(x, |x.ring|)
            && r.log == s.log + [if Items(x) != [] then Popped(i, Items(x)[0]) else PopFailed({0, 1})]
            && Total(r) == Total(s) - if Items(x) != [] then 1 else 0
  {
    var d := PopBumps(s, k);
    LaneFits(s, i);
    if Count(s.lanes[i]) > 0 {
      PopSeesSome(d, k - 1);
    } else {
      var e := PopSeesNone(d, k - 1);
    }
  }

  lemma PopCalls(s: State, k: nat) returns (b: State)
    requires k >= 1 && Quiet(s)
    ensures Kept(b) && Shaped(b) && b.p.Resting? && b.lanes == s.lanes && b.log == s.log
    ensures b.counter == s.counter && b.c == ReadTail(b.counter, false) && Shaped(Step(s, CallPop))
    ensures ConsumeOn(Step(s, CallPop), k) == ConsumeOn(b, k - 1)
  {
    StepKept(s, CallPop);
    var a := Step(s, CallPop);
    StepKept(a, Consume);
    b := ConsumerStep(a);
  }

  /** What a pop with no push under way takes: the oldest item of the lane the counter does not name,
      else of the one it names, else nothing. */
  ghost function Taking(s: State): Event
    requires Quiet(s)
  {
    LaneFits(s, 0);
    LaneFits(s, 1);
    var i := Opposite(s.counter);
    if Items(s.lanes[i]) != [] then Popped(i, Items(s.lanes[i])[0])
    else if Items(s.lanes[1 - i]) != [] then Popped(1 - i, Items(s.lanes[1 - i])[0])
    else PopFailed({0, 1})
  }

  /** A pop with no push under way: it takes what `Taking` says from that lane alone and moves the
      counter exactly when the lane it looks at first is empty.  So it succeeds exactly when the queue
      is not empty. */
  lemma PopAlone(s: State, k: nat)
    requires k >= 8 && Quiet(s)
    ensures var r := ConsumeOn(Step(s, CallPop), k);
            && Quiet(r) && r.log == s.log + [Taking(s)]
            && r.counter == s.counter + (if Taking(s).Popped? && Taking(s).lane == Opposite(s.counter) then 0 else 1)
            && (Taking(s).Popped? <==> Total(s) > 0)
            && Total(r) == Total(s) - if Total(s) > 0 then 1 else 0
  {
    var b := PopCalls(s, k);
    var c := PopLooks(b, k - 1);
    CountsAre(s);
    LaneFits(s, 0);
    LaneFits(s, 1);
    BothLanes(s, s.counter);
    if c.c.ReadSlot? { PopLands(c, k - 3); } else { PopTurns(c, k - 3, Own(s.counter)); }
  }

  lemma PoppedItems(s: State, k: nat, i: int)
    requires k >= 8 && Quiet(s) && 0 <= i < 2
    ensures LaneOk(s.lanes[i], |s.lanes[0].ring|)
    ensures var items := Items(s.lanes[i]);
            HoldsItems(ConsumeOn(Step(s, CallPop), k), i,
                       if Taking(s).Popped? && Taking(s).lane == i && items != [] then items[1..] else items)
  {
    PopAlone(s, k);
    LaneLog(s, i);
    ItemsFollow(s, ConsumeOn(Step(s, CallPop), k), Taking(s), i);
  }
}
