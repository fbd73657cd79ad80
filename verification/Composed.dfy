/**
 Whole calls of any number of threads: the link words and the slot locks together.  A call of get
 or set locks its slots and then moves the element it found; an insertion pops a spare element,
 locks its slots with it, links it, and if its free list is empty takes the tail off its list,
 removes it from the index and pushes it.  One step is one atomic access of either system; calling
 the index and returning from it access nothing and belong to the step before.
 */
module Composed {
  import opened Index
  import L = LinkWords
  import V = LinkInvariant
  import LinkEnds
  import LinkTheorems
  import S = SlotLocks
  import SlotInvariant
  import SlotTheorems
  import Blocks

  datatype Both = Both(link: L.State, slot: S.State)

  /** op is the operation that begins when the thread is free to choose one; e is the element of a
      hit.  Any element is allowed there, the one that was found included: by the time it is moved
      other threads may have done anything with it. */
  datatype Choice = Choice(op: Op, e: int, spurious: bool)

  ghost predicate Runs(b: Both, t: int) { L.Runs(b.link, t) && |b.slot.pcs| == |b.link.threads| }

  /** What the index told the thread. */
  function Told(op: Op, res: Res, e: int): L.Choice {
    match op
    case Get(_) => if res.Got? then L.StartMove(e) else L.Go
    case Set(_, _) => if res == Ok then L.StartMove(e) else L.Go
    case Insert(_, _, _) => if res == Ok then L.Miss else L.Duplicate
    case InsertOrSet(_, _, _) => if res == Ok then L.Miss else L.Hit(e)
    case Remove(_) => L.Go
  }

  function Bring(op: Op, e: int): Op {
    match op
    case Insert(k, v, _) => Insert(k, v, e)
    case InsertOrSet(k, v, _) => InsertOrSet(k, v, e)
    case _ => op
  }

  /** A step inside an index operation. */
  ghost function Probes(home: int -> int, b: Both, t: int, ch: Choice): Both
    requires Runs(b, t)
  {
    var s := S.Step(home, b.slot, t, if ch.spurious then S.Spurious else S.Go);
    match b.slot.pcs[t]
    case Return(c, res) =>
      if c.op.Remove? then Both(b.link, s)
      else if !L.In(b.link, ch.e) then b
      else Both(L.Step(b.link, t, Told(c.op, res, ch.e)), s)
    case _ => Both(b.link, s)
  }

  /** A step on the link words, or the call of an index operation. */
  ghost function Links(home: int -> int, b: Both, t: int, ch: Choice): Both
    requires Runs(b, t)
  {
    var th := b.link.threads[t];
    match th.pc
    case Pool(Idle) =>
      if S.IsInsert(ch.op) then Both(L.Step(b.link, t, L.StartInsert), b.slot)
      else if ch.op.Remove? then b
      else Both(b.link, S.Step(home, b.slot, t, S.Begin(ch.op)))
    case Pool(Probe) =>
      if S.IsInsert(ch.op) then Both(b.link, S.Step(home, b.slot, t, S.Begin(Bring(ch.op, th.spare)))) else b
    case Trim(TailDetach(x)) => Both(L.Step(b.link, t, L.Go), S.Step(home, b.slot, t, S.Begin(Remove(x))))
    case _ => Both(L.Step(b.link, t, if ch.spurious then L.Spurious else L.Go), b.slot)
  }

  ghost function Step(home: int -> int, b: Both, t: int, ch: Choice): (r: Both)
    requires Runs(b, t)
    ensures Runs(r, t) && |r.link.threads| == |b.link.threads|
  {
    if b.slot.ended then b
    else if b.slot.pcs[t].Idle? then Links(home, b, t, ch)
    else Probes(home, b, t, ch)
  }

  // ---- who has an element to himself ----

  predicate Private(th: L.Thread, x: int) {
    x == th.spare || th.pc == L.Pool(L.Push(x)) || th.pc == L.Pool(L.PushStore(x))
  }

  function Keeper(s: L.State, place: V.Place, x: int): int {
    match place
    case InList(_) => S.NOBODY
    case InFree(o) => o
    case InHand(t) => if 0 <= t < |s.threads| && Private(s.threads[t], x) then t else S.NOBODY
    case Unowned => 0
  }

  /** How a step on the link words changes that: an element is published when the index has taken
      it, and taken back when it has come off the tail. */
  function KeeperAfter(s: L.State, t: int, c: L.Choice, x: int, before: int): int
    requires L.Runs(s, t)
  {
    var th := s.threads[t];
    if th.pc == L.Pool(L.Probe) && c.Miss? && x == th.spare then S.NOBODY
    else if th.pc == L.Trim(L.TailDetach(x)) then t
    else before
  }

  /** Where x goes when the view follows a step of thread t at pc. */
  ghost predicate Goes(pc: L.PC, t: int, x: int, a: V.Place, b: V.Place) {
    a == b || (
      match pc
      case Unlink(_) => a.InList? && b == V.InHand(t)
      case Link(e, _, k) => x == e && !k.LinkHead? && a == V.InHand(t) && b == V.InList(t)
      case Trim(_) => a.InList? && b == V.InHand(t)
      case Pool(p) =>
        || (p.PopStore? && x == p.e && a == V.InFree(t) && b == V.InHand(t))
        || (p.PushStore? && x == p.e && a == V.InHand(t) && b == V.InFree(t)))
  }

  lemma UnlinkGoes(s: L.State, v: V.View, t: int, c: L.Choice, x: int)
    requires V.Inv(s, v) && L.Runs(s, t) && V.Has(v, x) && s.threads[t].pc.Unlink?
    ensures var v' := LinkEnds.Follow(s, v, t, c);
            V.Has(v', x) && Goes(s.threads[t].pc, t, x, v.cells[x].place, v'.cells[x].place)
  {
    assert V.ThreadOK(s, v, t);
  }

  lemma EndsGo(s: L.State, v: V.View, t: int, c: L.Choice, x: int)
    requires V.Inv(s, v) && L.Runs(s, t) && V.Has(v, x) && (s.threads[t].pc.Link? || s.threads[t].pc.Trim?)
    ensures var v' := LinkEnds.Follow(s, v, t, c);
            V.Has(v', x) && Goes(s.threads[t].pc, t, x, v.cells[x].place, v'.cells[x].place)
  {
    assert V.ThreadOK(s, v, t) && V.OwnerOK(s, v, t);
  }

  lemma PoolGoes(s: L.State, v: V.View, t: int, c: L.Choice, x: int)
    requires V.Inv(s, v) && L.Runs(s, t) && V.Has(v, x) && s.threads[t].pc.Pool?
    ensures var v' := LinkEnds.Follow(s, v, t, c);
            V.Has(v', x) && Goes(s.threads[t].pc, t, x, v.cells[x].place, v'.cells[x].place)
  {
    assert V.ThreadOK(s, v, t) && V.OwnerOK(s, v, t);
  }

  /** The place of x before and after, with the hands as the threads show them. */
  ghost predicate Handed(s: L.State, t: int, x: int, a: V.Place) {
    && 0 <= t < |s.threads| && (a == V.InHand(t) <==> LinkTheorems.HeldBy(s, t, x))
    && x != L.END && x != V.NOBODY
    && (x == s.threads[t].spare ==> x != V.HandOf(s.threads[t].pc))
  }

  lemma UnlinkKeeps(s: L.State, t: int, c: L.Choice, x: int, a: V.Place, b: V.Place)
    requires L.Runs(s, t) && s.threads[t].pc.Unlink? && Handed(s, t, x, a) && Handed(L.Step(s, t, c), t, x, b)
    requires Goes(s.threads[t].pc, t, x, a, b)
    ensures Keeper(L.Step(s, t, c), b, x) == Keeper(s, a, x)
  {
    UnlinkLeads(s, t, s.threads[t].pc.u, c);
    UnlinkAlone(s, t, s.threads[t].pc.u, c);
    KeptOn(s, L.Step(s, t, c), t, x, a, b);
  }

  /** Where unlinkElement may lead: on, to linkHead, or back to the free list with the spare element. */
  ghost predicate Leads(th: L.Thread, th': L.Thread) {
    || ((th'.pc.Unlink? || th'.pc.Link? || th'.pc == L.Pool(L.Wild)) && th'.spare == th.spare)
    || (th'.spare == L.END && th'.pc == L.Pool(if th.spare == L.END then L.Idle else L.Push(th.spare)))
  }

  lemma UnlinkLeads(s: L.State, t: int, k: L.Unlinking, c: L.Choice)
    requires L.Runs(s, t) && s.threads[t].pc == L.Unlink(k)
    ensures Leads(s.threads[t], L.StepUnlink(s, t, k, c).threads[t])
  {}

  /** Such a thread keeps for itself what it kept. */
  lemma KeptOn(s: L.State, s': L.State, t: int, x: int, a: V.Place, b: V.Place)
    requires L.Runs(s, t) && L.Runs(s', t) && s.threads[t].pc.Unlink? && Handed(s, t, x, a) && Handed(s', t, x, b)
    requires Goes(s.threads[t].pc, t, x, a, b) && Leads(s.threads[t], s'.threads[t])
    requires |s'.threads| == |s.threads| && forall u :: 0 <= u < |s.threads| && u != t ==> s'.threads[u] == s.threads[u]
    ensures Keeper(s', b, x) == Keeper(s, a, x)
  {}

  lemma LinkKeeps(s: L.State, t: int, c: L.Choice, x: int, a: V.Place, b: V.Place)
    requires L.Runs(s, t) && s.threads[t].pc.Link? && Handed(s, t, x, a) && Handed(L.Step(s, t, c), t, x, b)
    requires Goes(s.threads[t].pc, t, x, a, b)
    ensures Keeper(L.Step(s, t, c), b, x) == Keeper(s, a, x)
  {}

  lemma TrimKeeps(s: L.State, t: int, c: L.Choice, x: int, a: V.Place, b: V.Place)
    requires L.Runs(s, t) && s.threads[t].pc.Trim? && Handed(s, t, x, a) && Handed(L.Step(s, t, c), t, x, b)
    requires Goes(s.threads[t].pc, t, x, a, b) && s.threads[t].spare == L.END
    requires L.Step(s, t, c).threads[t].pc != L.Pool(L.Wild)
    ensures Keeper(L.Step(s, t, c), b, x) == KeeperAfter(s, t, c, x, Keeper(s, a, x))
  {}

  lemma PoolKeeps(s: L.State, t: int, c: L.Choice, x: int, a: V.Place, b: V.Place)
    requires L.Runs(s, t) && s.threads[t].pc.Pool? && Handed(s, t, x, a) && Handed(L.Step(s, t, c), t, x, b)
    requires Goes(s.threads[t].pc, t, x, a, b)
    ensures Keeper(L.Step(s, t, c), b, x) == KeeperAfter(s, t, c, x, Keeper(s, a, x))
  {}

  lemma HandedAt(s: L.State, v: V.View, t: int, x: int)
    requires V.Inv(s, v) && L.Runs(s, t) && V.Has(v, x)
    ensures Handed(s, t, x, v.cells[x].place)
  {
    LinkTheorems.HandPlace(s, v, t, x);
    assert V.ThreadOK(s, v, t);
  }

  lemma FollowGoes(s: L.State, v: V.View, t: int, c: L.Choice, x: int)
    requires V.Inv(s, v) && L.Runs(s, t) && V.Has(v, x)
    ensures var v' := LinkEnds.Follow(s, v, t, c);
            V.Has(v', x) && Goes(s.threads[t].pc, t, x, v.cells[x].place, v'.cells[x].place)
  {
    match s.threads[t].pc
    case Unlink(_) => UnlinkGoes(s, v, t, c, x);
    case Pool(_) => PoolGoes(s, v, t, c, x);
    case _ => EndsGo(s, v, t, c, x);
  }

  lemma OthersKeep(s: L.State, t: int, c: L.Choice, x: int, a: V.Place, b: V.Place)
    requires L.Runs(s, t) && Handed(s, t, x, a) && Handed(L.Step(s, t, c), t, x, b)
    requires Goes(s.threads[t].pc, t, x, a, b)
    requires s.threads[t].pc.Trim? ==> s.threads[t].spare == L.END && L.Step(s, t, c).threads[t].pc != L.Pool(L.Wild)
    ensures Keeper(L.Step(s, t, c), b, x) == KeeperAfter(s, t, c, x, Keeper(s, a, x))
  {
    match s.threads[t].pc
    case Unlink(_) => UnlinkKeeps(s, t, c, x, a, b);
    case Link(_, _, _) => LinkKeeps(s, t, c, x, a, b);
    case Trim(_) => TrimKeeps(s, t, c, x, a, b);
    case Pool(_) => PoolKeeps(s, t, c, x, a, b);
  }

  lemma KeeperStep(s: L.State, v: V.View, t: int, c: L.Choice, x: int)
    requires V.Inv(s, v) && L.Runs(s, t) && V.Has(v, x)
    ensures var v' := LinkEnds.Follow(s, v, t, c);
            && V.Has(v', x)
            && Keeper(L.Step(s, t, c), v'.cells[x].place, x) == KeeperAfter(s, t, c, x, Keeper(s, v.cells[x].place, x))
  {
    var s', v' := L.Step(s, t, c), LinkEnds.Follow(s, v, t, c);
    LinkEnds.StepPreserves(s, v, t, c);
    FollowGoes(s, v, t, c, x);
    HandedAt(s, v, t, x);
    HandedAt(s', v', t, x);
    TrimmingThread(s, v, t);
    TrimmingThread(s', v', t);
    OthersKeep(s, t, c, x, v.cells[x].place, v'.cells[x].place);
  }

  lemma TrimmingThread(s: L.State, v: V.View, t: int)
    requires V.Inv(s, v) && L.Runs(s, t)
    ensures s.threads[t].pc != L.Pool(L.Wild)
    ensures s.threads[t].pc.Trim? ==> s.threads[t].spare == L.END
  {
    assert V.ThreadOK(s, v, t);
  }

  // ---- the invariant ----

  /** A thread inside an index operation stands where the operation was called. */
  ghost predicate InStep(th: L.Thread, pc: S.PC) {
    !pc.Idle? ==>
      match pc.c.op
      case Remove(x) => th.pc == L.Pool(L.Push(x))
      case Get(_) => th.pc == L.Pool(L.Idle)
      case Set(_, _) => th.pc == L.Pool(L.Idle)
      case _ => th.pc == L.Pool(L.Probe) && th.spare == pc.c.op.e
  }

  ghost predicate Kept(b: Both, v: V.View, x: int)
    requires 0 <= x < |v.cells| == |b.slot.hand|
  {
    b.slot.hand[x] == Keeper(b.link, v.cells[x].place, x)
  }

  /** The index knows of every element whether a thread has it to itself. */
  ghost predicate Joined(b: Both, v: V.View) {
    && V.Inv(b.link, v) && |b.slot.pcs| == |b.link.threads|
    && |b.slot.elems| == |b.slot.hand| == |v.cells|
    && (forall x {:trigger Kept(b, v, x)} :: V.Has(v, x) ==> Kept(b, v, x))
    && (forall t {:trigger InStep(b.link.threads[t], b.slot.pcs[t])} :: 0 <= t < |b.slot.pcs| ==>
          InStep(b.link.threads[t], b.slot.pcs[t]))
  }

  /** An index operation other than its call and its return changes neither hands nor calls. */
  lemma SlotGoes(home: int -> int, s: S.State, t: int, ch: S.Choice)
    requires 0 <= t < |s.pcs| && !s.ended && !s.pcs[t].Idle? && !s.pcs[t].Return?
    ensures var s' := S.Step(home, s, t, ch);
            && s'.hand == s.hand && |s'.elems| == |s.elems| && |s'.pcs| == |s.pcs|
            && !s'.pcs[t].Idle? && s'.pcs[t].c == s.pcs[t].c
            && forall u :: 0 <= u < |s.pcs| && u != t ==> s'.pcs[u] == s.pcs[u]
  {}

  lemma ProbeStep(home: int -> int, b: Both, v: V.View, t: int, ch: Choice)
    requires Joined(b, v) && Runs(b, t) && !b.slot.ended && !b.slot.pcs[t].Idle? && !b.slot.pcs[t].Return?
    ensures Joined(Probes(home, b, t, ch), v)
  {
    var b' := Probes(home, b, t, ch);
    SlotGoes(home, b.slot, t, if ch.spurious then S.Spurious else S.Go);
    forall x | V.Has(v, x) ensures Kept(b', v, x) { assert Kept(b, v, x); }
    forall u | 0 <= u < |b.slot.pcs| ensures InStep(b'.link.threads[u], b'.slot.pcs[u]) {
      assert InStep(b.link.threads[u], b.slot.pcs[u]);
    }
  }

  lemma UnlinkAlone(s: L.State, t: int, k: L.Unlinking, c: L.Choice)
    requires L.Runs(s, t)
    ensures forall u :: 0 <= u < |s.threads| && u != t ==> L.StepUnlink(s, t, k, c).threads[u] == s.threads[u]
  {}

  lemma TrimAlone(s: L.State, t: int, m: L.Trimming, c: L.Choice, u: int)
    requires L.Runs(s, t) && 0 <= u < |s.threads| && u != t
    ensures L.StepTrim(s, t, m, c).threads[u] == s.threads[u]
  {}

  /** A step of t on the link words leaves the other threads where they are. */
  lemma LinkGoes(s: L.State, t: int, c: L.Choice, u: int)
    requires L.Runs(s, t) && 0 <= u < |s.threads| && u != t
    ensures L.Step(s, t, c).threads[u] == s.threads[u]
  {
    match s.threads[t].pc
    case Unlink(k) => UnlinkAlone(s, t, k, c);
    case Trim(m) => TrimAlone(s, t, m, c, u);
    case _ =>
  }

  lemma Rejoin(b: Both, v: V.View, t: int, c: L.Choice, s: S.State)
    requires Joined(b, v) && Runs(b, t) && |s.pcs| == |b.slot.pcs| && |s.elems| == |s.hand| == |v.cells|
    requires forall x {:trigger s.hand[x]} :: V.Has(v, x) ==>
               s.hand[x] == KeeperAfter(b.link, t, c, x, b.slot.hand[x])
    requires forall u :: 0 <= u < |s.pcs| && u != t ==> s.pcs[u] == b.slot.pcs[u]
    requires InStep(L.Step(b.link, t, c).threads[t], s.pcs[t])
    ensures Joined(Both(L.Step(b.link, t, c), s), LinkEnds.Follow(b.link, v, t, c))
  {
    var b', v' := Both(L.Step(b.link, t, c), s), LinkEnds.Follow(b.link, v, t, c);
    LinkEnds.StepPreserves(b.link, v, t, c);
    forall x | V.Has(v', x) ensures Kept(b', v', x) {
      assert Kept(b, v, x);
      KeeperStep(b.link, v, t, c, x);
    }
    forall u | 0 <= u < |s.pcs| ensures InStep(b'.link.threads[u], s.pcs[u]) {
      assert InStep(b.link.threads[u], b.slot.pcs[u]);
      if u != t { LinkGoes(b.link, t, c, u); }
    }
  }

  // ---- every step keeps it ----

  /** The index answers, and the thread goes on with its lists. */
  lemma ReturnStep(home: int -> int, b: Both, v: V.View, t: int, e: int)
    requires Joined(b, v) && Runs(b, t) && !b.slot.ended && b.slot.pcs[t].Return? && !b.slot.pcs[t].c.op.Remove?
    ensures var c := Told(b.slot.pcs[t].c.op, b.slot.pcs[t].res, e);
            Joined(Both(L.Step(b.link, t, c), S.Step(home, b.slot, t, S.Go)), LinkEnds.Follow(b.link, v, t, c))
  {
    var pc := b.slot.pcs[t];
    assert InStep(b.link.threads[t], pc);
    Rejoin(b, v, t, Told(pc.c.op, pc.res, e), S.Step(home, b.slot, t, S.Go));
  }

  /** The evicted element is out of the index. */
  lemma EvictedStep(home: int -> int, b: Both, v: V.View, t: int)
    requires Joined(b, v) && Runs(b, t) && !b.slot.ended && b.slot.pcs[t].Return? && b.slot.pcs[t].c.op.Remove?
    ensures Joined(Both(b.link, S.Step(home, b.slot, t, S.Go)), v)
  {
    var b' := Both(b.link, S.Step(home, b.slot, t, S.Go));
    forall x | V.Has(v, x) ensures Kept(b', v, x) { assert Kept(b, v, x); }
    forall u | 0 <= u < |b.slot.pcs| ensures InStep(b'.link.threads[u], b'.slot.pcs[u]) {
      assert InStep(b.link.threads[u], b.slot.pcs[u]);
    }
  }

  /** An index operation that takes nothing off the lists can always be called. */
  lemma CallStep(home: int -> int, b: Both, v: V.View, t: int, op: Op)
    requires Joined(b, v) && Runs(b, t) && !b.slot.ended && b.slot.pcs[t].Idle? && !op.Remove?
    requires S.IsInsert(op) ==> b.link.threads[t].pc == L.Pool(L.Probe) && op.e == b.link.threads[t].spare
    requires !S.IsInsert(op) ==> b.link.threads[t].pc == L.Pool(L.Idle)
    ensures S.CanBegin(b.slot, t, op) && Joined(Both(b.link, S.Step(home, b.slot, t, S.Begin(op))), v)
  {
    var b' := Both(b.link, S.Step(home, b.slot, t, S.Begin(op)));
    if S.IsInsert(op) { SpareKept(b, v, t); }
    forall x | V.Has(v, x) ensures Kept(b', v, x) { assert Kept(b, v, x); }
    forall u | 0 <= u < |b.slot.pcs| ensures InStep(b'.link.threads[u], b'.slot.pcs[u]) {
      assert InStep(b.link.threads[u], b.slot.pcs[u]);
    }
  }

  lemma SpareKept(b: Both, v: V.View, t: int)
    requires Joined(b, v) && Runs(b, t) && b.link.threads[t].pc == L.Pool(L.Probe)
    ensures var e := b.link.threads[t].spare; V.Has(v, e) && b.slot.hand[e] == t
  {
    var e := b.link.threads[t].spare;
    assert V.ThreadOK(b.link, v, t);
    assert Kept(b, v, e);
  }

  /** What has come off the tail is nobody's, so its removal can be called. */
  lemma DetachedStep(home: int -> int, b: Both, v: V.View, t: int, x: int)
    requires Joined(b, v) && Runs(b, t) && !b.slot.ended && b.slot.pcs[t].Idle?
    requires b.link.threads[t].pc == L.Trim(L.TailDetach(x))
    ensures S.CanBegin(b.slot, t, Remove(x))
    ensures Joined(Both(L.Step(b.link, t, L.Go), S.Step(home, b.slot, t, S.Begin(Remove(x)))),
                   LinkEnds.Follow(b.link, v, t, L.Go))
  {
    assert V.ThreadOK(b.link, v, t);
    assert Kept(b, v, x);
    Rejoin(b, v, t, L.Go, S.Step(home, b.slot, t, S.Begin(Remove(x))));
  }

  /** A step on the link words alone. */
  lemma ListStep(b: Both, v: V.View, t: int, c: L.Choice)
    requires Joined(b, v) && Runs(b, t) && b.slot.pcs[t].Idle? && !c.Miss?
    requires !(b.link.threads[t].pc.Trim? && b.link.threads[t].pc.m.TailDetach?)
    ensures Joined(Both(L.Step(b.link, t, c), b.slot), LinkEnds.Follow(b.link, v, t, c))
  {
    Rejoin(b, v, t, c, b.slot);
  }

  lemma LinksStep(home: int -> int, b: Both, v: V.View, t: int, ch: Choice) returns (v': V.View)
    requires Joined(b, v) && Runs(b, t) && !b.slot.ended && b.slot.pcs[t].Idle?
    ensures Joined(Links(home, b, t, ch), v') && LinkTheorems.SameUnowned(v, v')
  {
    var th := b.link.threads[t];
    v' := v;
    match th.pc
    case Pool(Idle) =>
      if S.IsInsert(ch.op) {
        v' := PlainStep(b, v, t, L.StartInsert);
      } else if !ch.op.Remove? {
        CallStep(home, b, v, t, ch.op);
      }
    case Pool(Probe) =>
      if S.IsInsert(ch.op) { CallStep(home, b, v, t, Bring(ch.op, th.spare)); }
    case Trim(TailDetach(x)) => v' := TailStep(home, b, v, t, x);
    case _ => v' := PlainStep(b, v, t, if ch.spurious then L.Spurious else L.Go);
  }

  lemma TailStep(home: int -> int, b: Both, v: V.View, t: int, x: int) returns (v': V.View)
    requires Joined(b, v) && Runs(b, t) && !b.slot.ended && b.slot.pcs[t].Idle?
    requires b.link.threads[t].pc == L.Trim(L.TailDetach(x))
    ensures Joined(Both(L.Step(b.link, t, L.Go), S.Step(home, b.slot, t, S.Begin(Remove(x)))), v')
    ensures LinkTheorems.SameUnowned(v, v')
  {
    DetachedStep(home, b, v, t, x);
    LinkTheorems.FollowKeepsUnowned(b.link, v, t, L.Go);
    v' := LinkEnds.Follow(b.link, v, t, L.Go);
  }

  lemma PlainStep(b: Both, v: V.View, t: int, c: L.Choice) returns (v': V.View)
    requires Joined(b, v) && Runs(b, t) && b.slot.pcs[t].Idle? && !c.Miss?
    requires !(b.link.threads[t].pc.Trim? && b.link.threads[t].pc.m.TailDetach?)
    ensures Joined(Both(L.Step(b.link, t, c), b.slot), v') && LinkTheorems.SameUnowned(v, v')
  {
    ListStep(b, v, t, c);
    LinkTheorems.FollowKeepsUnowned(b.link, v, t, c);
    v' := LinkEnds.Follow(b.link, v, t, c);
  }

  lemma StepJoined(home: int -> int, b: Both, v: V.View, t: int, ch: Choice) returns (v': V.View)
    requires Joined(b, v) && Runs(b, t)
    ensures Joined(Step(home, b, t, ch), v') && LinkTheorems.SameUnowned(v, v')
  {
    v' := v;
    if !b.slot.ended {
      if b.slot.pcs[t].Idle? {
        v' := LinksStep(home, b, v, t, ch);
      } else if !b.slot.pcs[t].Return? {
        ProbeStep(home, b, v, t, ch);
      } else if b.slot.pcs[t].c.op.Remove? {
        EvictedStep(home, b, v, t);
      } else if L.In(b.link, ch.e) {
        var c := Told(b.slot.pcs[t].c.op, b.slot.pcs[t].res, ch.e);
        ReturnStep(home, b, v, t, ch.e);
        LinkTheorems.FollowKeepsUnowned(b.link, v, t, c);
        v' := LinkEnds.Follow(b.link, v, t, c);
      }
    }
  }

  // ---- runs ----

  datatype Pick = Pick(t: int, ch: Choice)

  ghost predicate Legal(ps: seq<Pick>, threads: int) {
    forall i :: 0 <= i < |ps| ==> 0 <= ps[i].t < threads
  }

  /** The thread whose block of elements x is in. */
  function Hands(n: nat, threads: nat): seq<int>
    requires 0 < threads <= n
  {
    seq(n, x => if x < threads * (n / threads) then x / (n / threads) else 0)
  }

  ghost function Start(n: nat, threads: nat, hashSize: nat, elems: seq<Elem>): Both
    requires 0 < threads <= n
  {
    Both(L.Start(n, threads), S.Start(hashSize, elems, threads, Hands(n, threads)))
  }

  ghost predicate Ready(b: Both, threads: nat) {
    L.Shaped(b.link) && |b.slot.pcs| == |b.link.threads| == threads
  }

  ghost function Run(home: int -> int, b: Both, ps: seq<Pick>, threads: nat): (r: Both)
    requires Ready(b, threads) && Legal(ps, threads)
    ensures Ready(r, threads)
  {
    if ps == [] then b
    else
      var p := ps[|ps| - 1];
      Step(home, Run(home, b, ps[..|ps| - 1], threads), p.t, p.ch)
  }

  lemma StartJoined(n: nat, threads: nat, hashSize: nat, elems: seq<Elem>)
    requires 0 < threads <= n == |elems| <= L.END
    ensures Joined(Start(n, threads, hashSize, elems), LinkTheorems.FirstView(n, threads))
  {
    var b, v := Start(n, threads, hashSize, elems), LinkTheorems.FirstView(n, threads);
    LinkTheorems.StartInv(n, threads);
    forall x | V.Has(v, x) ensures Kept(b, v, x) {}
  }

  lemma {:induction false} RunJoined(home: int -> int, n: nat, threads: nat, hashSize: nat, elems: seq<Elem>,
                                     ps: seq<Pick>)
    returns (v: V.View)
    requires 0 < threads <= n == |elems| <= L.END && Legal(ps, threads)
    ensures Joined(Run(home, Start(n, threads, hashSize, elems), ps, threads), v)
    ensures LinkTheorems.SameUnowned(LinkTheorems.FirstView(n, threads), v)
  {
    if ps == [] {
      StartJoined(n, threads, hashSize, elems);
      v := LinkTheorems.FirstView(n, threads);
    } else {
      var w := RunJoined(home, n, threads, hashSize, elems, ps[..|ps| - 1]);
      var p := ps[|ps| - 1];
      v := StepJoined(home, Run(home, Start(n, threads, hashSize, elems), ps[..|ps| - 1], threads), w, p.t, p.ch);
    }
  }

  // ---- both systems run as they do alone ----

  ghost predicate LinkStepOf(s: L.State, s': L.State, t: int, es: seq<LinkTheorems.Event>)
    requires L.Runs(s, t)
  {
    || (es == [] && s' == s)
    || (|es| == 1 && es[0].t == t && s' == L.Step(s, t, es[0].c))
  }

  ghost predicate SlotStepOf(home: int -> int, s: S.State, s': S.State, t: int, qs: seq<SlotTheorems.Pick>)
    requires 0 <= t < |s.pcs|
  {
    || (qs == [] && s' == s)
    || (|qs| == 1 && qs[0].t == t && s' == S.Step(home, s, t, qs[0].ch))
  }

  lemma StepParts(home: int -> int, b: Both, t: int, ch: Choice)
    returns (es: seq<LinkTheorems.Event>, qs: seq<SlotTheorems.Pick>)
    requires Runs(b, t)
    ensures LinkStepOf(b.link, Step(home, b, t, ch).link, t, es)
    ensures SlotStepOf(home, b.slot, Step(home, b, t, ch).slot, t, qs)
  {
    es, qs := [], [];
    var b' := Step(home, b, t, ch);
    var go := if ch.spurious then L.Spurious else L.Go;
    if b'.slot != b.slot {
      if !b.slot.pcs[t].Idle? {
        qs := [SlotTheorems.Pick(t, if ch.spurious then S.Spurious else S.Go)];
      } else if b.link.threads[t].pc.Trim? {
        qs := [SlotTheorems.Pick(t, S.Begin(Remove(b.link.threads[t].pc.m.x)))];
      } else {
        qs := [SlotTheorems.Pick(t,
                                 S.Begin(if S.IsInsert(ch.op) then Bring(ch.op, b.link.threads[t].spare) else ch.op))];
      }
    }
    if b'.link != b.link {
      if !b.slot.pcs[t].Idle? {
        es := [LinkTheorems.Event(t, Told(b.slot.pcs[t].c.op, b.slot.pcs[t].res, ch.e))];
      } else if b.link.threads[t].pc == L.Pool(L.Idle) {
        es := [LinkTheorems.Event(t, L.StartInsert)];
      } else if b.link.threads[t].pc.Trim? && b.link.threads[t].pc.m.TailDetach? {
        es := [LinkTheorems.Event(t, L.Go)];
      } else {
        es := [LinkTheorems.Event(t, go)];
      }
    }
  }

  lemma LinkMore(s: L.State, es: seq<LinkTheorems.Event>, more: seq<LinkTheorems.Event>, t: int, s': L.State)
    requires L.Shaped(s) && LinkTheorems.Legal(es, |s.threads|) && 0 <= t < |s.threads|
    requires LinkStepOf(LinkTheorems.Run(s, es), s', t, more)
    ensures LinkTheorems.Legal(es + more, |s.threads|) && LinkTheorems.Run(s, es + more) == s'
  {
    if more == [] {
      assert es + more == es;
    } else {
      assert (es + more)[..|es|] == es;
    }
  }

  lemma SlotMore(home: int -> int, s: S.State, qs: seq<SlotTheorems.Pick>, more: seq<SlotTheorems.Pick>, t: int,
                 s': S.State)
    requires SlotTheorems.Legal(qs, |s.pcs|) && 0 <= t < |s.pcs|
    requires SlotStepOf(home, SlotTheorems.Run(home, s, qs), s', t, more)
    ensures SlotTheorems.Legal(qs + more, |s.pcs|) && SlotTheorems.Run(home, s, qs + more) == s'
  {
    if more == [] {
      assert qs + more == qs;
    } else {
      assert (qs + more)[..|qs|] == qs;
    }
  }

  /** Every run of the two together is a run of each: all that holds of their runs holds here. */
  lemma {:induction false} Projects(home: int -> int, b: Both, ps: seq<Pick>, threads: nat)
    returns (es: seq<LinkTheorems.Event>, qs: seq<SlotTheorems.Pick>)
    requires Ready(b, threads) && Legal(ps, threads)
    ensures LinkTheorems.Legal(es, threads) && Run(home, b, ps, threads).link == LinkTheorems.Run(b.link, es)
    ensures SlotTheorems.Legal(qs, threads) && Run(home, b, ps, threads).slot == SlotTheorems.Run(home, b.slot, qs)
  {
    if ps == [] {
      es, qs := [], [];
    } else {
      var p, m := ps[|ps| - 1], Run(home, b, ps[..|ps| - 1], threads);
      var es0, qs0 := Projects(home, b, ps[..|ps| - 1], threads);
      var es1, qs1 := StepParts(home, m, p.t, p.ch);
      var r := Step(home, m, p.t, p.ch);
      LinkMore(b.link, es0, es1, p.t, r.link);
      SlotMore(home, b.slot, qs0, qs1, p.t, r.slot);
      es, qs := es0 + es1, qs0 + qs1;
    }
  }

  // ---- listed and indexed ----

  /** No thread works in the index with an element that is on a list. */
  lemma ListedFree(b: Both, v: V.View, t: int, x: int)
    requires Joined(b, v) && V.Has(v, x) && 0 <= t < |b.slot.pcs| && SlotInvariant.Engaged(b.slot.pcs[t], x)
    ensures v.cells[x].place == V.InHand(t)
  {
    assert InStep(b.link.threads[t], b.slot.pcs[t]);
    LinkTheorems.HandPlace(b.link, v, t, x);
  }

  /** An element on an LRU list is in the index; one on a free list, or on none, is not. */
  lemma PlaceTells(home: int -> int, b: Both, v: V.View, g: Table, owner: seq<int>, x: int)
    requires Joined(b, v) && V.Has(v, x) && SlotInvariant.Inv(home, b.slot, g, owner)
    ensures v.cells[x].place.InList? ==> x in g.slots
    ensures v.cells[x].place.InFree? || v.cells[x].place.Unowned? ==> x !in g.slots
  {
    assert Kept(b, v, x) && SlotInvariant.ElemOK(b.slot, g, x);
    var u := b.slot.hand[x];
    if u != S.NOBODY && SlotInvariant.Engaged(b.slot.pcs[u], x) { ListedFree(b, v, u, x); }
    if v.cells[x].place.InFree? { assert V.ElemOK(b.link.words[x], v, x); }
  }

  ghost predicate Quiescent(b: Both) {
    && LinkTheorems.Quiescent(b.link)
    && forall t {:trigger b.slot.pcs[t]} :: 0 <= t < |b.slot.pcs| ==> b.slot.pcs[t].Idle?
  }

  /** Once no thread is in the index, its memory is what the serial run has left. */
  lemma QuietTable(home: int -> int, s: S.State, g: Table, owner: seq<int>)
    requires SlotInvariant.Inv(home, s, g, owner) && forall t {:trigger s.pcs[t]} :: 0 <= t < |s.pcs| ==> s.pcs[t].Idle?
    ensures s.slots == g.slots && s.elems == g.elems
  {
    forall p | 0 <= p < |s.slots| ensures s.slots[p] == g.slots[p] {
      assert SlotInvariant.SlotOK(s, g, owner, p);
      assert owner[p] == S.NOBODY || s.pcs[owner[p]].Idle?;
      assert forall t {:trigger s.pcs[t]} :: 0 <= t < |s.pcs| ==>
          SlotInvariant.Owners(s, owner, t) && !SlotInvariant.Holds(s.pcs[t], |owner|, p);
    }
    forall x | 0 <= x < |s.elems| ensures s.elems[x] == g.elems[x] { assert SlotInvariant.ElemOK(s, g, x); }
  }

  ghost predicate OnSome(lists: seq<seq<int>>, x: int) { exists t :: 0 <= t < |lists| && x in lists[t] }

  /** The lists the link words spell, against the contents g of the index. */
  ghost predicate Agree(b: Both, g: Table, lists: seq<seq<int>>, frees: seq<seq<int>>) {
    && (forall x :: OnSome(lists, x) ==> x in g.slots)
    && (forall x :: OnSome(frees, x) ==> x !in g.slots)
    && (forall x :: x in g.slots && x != FREE ==> OnSome(lists, x) || x in LinkTheorems.Hands(b.link))
  }

  lemma ListsAgree(home: int -> int, b: Both, v: V.View, g: Table, owner: seq<int>, lists: seq<seq<int>>,
                   frees: seq<seq<int>>)
    requires Joined(b, v) && SlotInvariant.Inv(home, b.slot, g, owner) && LinkTheorems.AllAre(b.link, v, lists, frees)
    ensures Agree(b, g, lists, frees)
  {
    forall x, t | 0 <= t < |lists| ensures (x in lists[t] ==> x in g.slots) && (x in frees[t] ==> x !in g.slots) {
      LinkTheorems.Member(b.link, v, lists, frees, t, x);
      if V.Has(v, x) { PlaceTells(home, b, v, g, owner, x); }
    }
    forall x | x in g.slots && x != FREE ensures OnSome(lists, x) || x in LinkTheorems.Hands(b.link) {
      PlaceTells(home, b, v, g, owner, x);
      assert V.ElemOK(b.link.words[x], v, x);
      match v.cells[x].place
      case InList(o) => LinkTheorems.Member(b.link, v, lists, frees, o, x);
      case _ => LinkTheorems.CarriedPlace(b.link, v, x);
    }
  }

  /** Main theorem.  In every interleaving of whole calls, as long as evictions shift safely and no
      lock buffer overruns: the lists are intact, every element of an LRU list is in the index, no
      element of a free list is, and an indexed element off the lists is in some thread's hands.
      Between calls an element is on an LRU list exactly when it is in a slot. */
  lemma ListedIffIndexed(home: int -> int, n: nat, threads: nat, hashSize: nat, elems: seq<Elem>, ps: seq<Pick>)
    returns (lists: seq<seq<int>>, frees: seq<seq<int>>)
    requires 0 < threads <= n == |elems| < hashSize && n <= L.END && Homes(home, hashSize) && Legal(ps, threads)
    requires var b := Run(home, Start(n, threads, hashSize, elems), ps, threads);
             !b.slot.ended && SlotTheorems.Benign(home, SlotTheorems.Empty(hashSize, elems), b.slot.trace)
    ensures var b := Run(home, Start(n, threads, hashSize, elems), ps, threads);
            var g := S.Replay(home, SlotTheorems.Empty(hashSize, elems), b.slot.trace);
            && |lists| == |frees| == threads
            && (forall t {:trigger lists[t]} :: 0 <= t < threads ==>
                LinkTheorems.Anchored(b.link, t, lists[t], frees[t]))
            && LinkTheorems.Partition(threads * (n / threads), lists, frees, LinkTheorems.Hands(b.link))
            && Agree(b, g, lists, frees)
            && (Quiescent(b) ==> forall x :: x != FREE ==> (x in b.slot.slots <==> OnSome(lists, x)))
  {
    var b0 := Start(n, threads, hashSize, elems);
    var b := Run(home, b0, ps, threads);
    var v := RunJoined(home, n, threads, hashSize, elems, ps);
    var owner := IndexHolds(home, n, threads, hashSize, elems, ps);
    var g := S.Replay(home, SlotTheorems.Empty(hashSize, elems), b.slot.trace);
    lists, frees := LinkTheorems.AllLists(b.link, v, threads);
    ListsAgree(home, b, v, g, owner, lists, frees);
    ListsStand(n, threads, b, v, lists, frees);
    if Quiescent(b) {
      QuietTable(home, b.slot, g, owner);
      forall x ensures x !in LinkTheorems.Hands(b.link) { NoHands(b, v, x); }
    }
  }

  lemma IndexHolds(home: int -> int, n: nat, threads: nat, hashSize: nat, elems: seq<Elem>, ps: seq<Pick>)
    returns (owner: seq<int>)
    requires 0 < threads <= n == |elems| < hashSize && n <= L.END && Homes(home, hashSize) && Legal(ps, threads)
    requires var b := Run(home, Start(n, threads, hashSize, elems), ps, threads);
             !b.slot.ended && SlotTheorems.Benign(home, SlotTheorems.Empty(hashSize, elems), b.slot.trace)
    ensures var b := Run(home, Start(n, threads, hashSize, elems), ps, threads);
            SlotInvariant.Inv(home, b.slot, S.Replay(home, SlotTheorems.Empty(hashSize, elems), b.slot.trace), owner)
  {
    var b0 := Start(n, threads, hashSize, elems);
    var es, qs := Projects(home, b0, ps, threads);
    HandsInRange(n, threads);
    SlotTheorems.RunGood(home, hashSize, elems, threads, Hands(n, threads), qs);
    var b, g0 := Run(home, b0, ps, threads), SlotTheorems.Empty(hashSize, elems);
    owner :| SlotInvariant.Inv(home, b.slot, S.Replay(home, g0, b.slot.trace), owner);
  }

  lemma HandsInRange(n: nat, threads: nat)
    requires 0 < threads <= n
    ensures forall x {:trigger Hands(n, threads)[x]} :: 0 <= x < n ==> 0 <= Hands(n, threads)[x] < threads
  {
    var per := n / threads;
    Blocks.WholeBlocks(n, threads);
    forall x | 0 <= x < threads * per ensures 0 <= x / per < threads {
      Blocks.Block(x, x / per, x % per, per, threads);
    }
  }

  lemma ListsStand(n: nat, threads: nat, b: Both, v: V.View, lists: seq<seq<int>>, frees: seq<seq<int>>)
    requires 0 < threads <= n && V.Inv(b.link, v) && |b.link.threads| == threads
    requires LinkTheorems.SameUnowned(LinkTheorems.FirstView(n, threads), v)
    requires LinkTheorems.AllAre(b.link, v, lists, frees)
    ensures forall t {:trigger lists[t]} :: 0 <= t < threads ==> LinkTheorems.Anchored(b.link, t, lists[t], frees[t])
    ensures LinkTheorems.Partition(threads * (n / threads), lists, frees, LinkTheorems.Hands(b.link))
  {
    forall t | 0 <= t < threads ensures LinkTheorems.Anchored(b.link, t, lists[t], frees[t]) {
      assert LinkTheorems.Lists(b.link, v, t, lists[t], frees[t]);
      LinkTheorems.ListsAnchored(b.link, v, t, lists[t], frees[t]);
    }
    Blocks.WholeBlocks(n, threads);
    LinkTheorems.ListsPartition(b.link, v, lists, frees, threads * (n / threads));
  }

  lemma NoHands(b: Both, v: V.View, x: int)
    requires V.Inv(b.link, v) && LinkTheorems.Quiescent(b.link)
    ensures x !in LinkTheorems.Hands(b.link)
  {
    if V.Has(v, x) { LinkTheorems.NothingLocked(b.link, v, x); }
  }

  /** In the same runs the calls answer as a finite map does, in the order of their last slot lock. */
  lemma CallsAreSerial(home: int -> int, n: nat, threads: nat, hashSize: nat, elems: seq<Elem>, ps: seq<Pick>)
    requires 0 < threads <= n == |elems| < hashSize && n <= L.END && Homes(home, hashSize) && Legal(ps, threads)
    requires SlotTheorems.Benign(home, SlotTheorems.Empty(hashSize, elems),
                                 Run(home, Start(n, threads, hashSize, elems), ps, threads).slot.trace)
    ensures var b, g := Run(home, Start(n, threads, hashSize, elems), ps, threads), SlotTheorems.Empty(hashSize, elems);
            S.Linearizable(home, g, b.slot.trace, threads) && SlotTheorems.MapLike(home, g, b.slot.trace)
  {
    var es, qs := Projects(home, Start(n, threads, hashSize, elems), ps, threads);
    HandsInRange(n, threads);
    SlotTheorems.RunsAreSerial(home, hashSize, elems, threads, Hands(n, threads), qs);
  }
}
