/**
 The invariant of the link-word transition system.  A `View` is the list structure seen
 through the locks: for every element where it is, its true neighbours, and which thread
 has locked which half of its word.
 */
module LinkInvariant {
  import opened LinkWords

  const NOBODY := -1

  datatype Place = InList(owner: int) | InFree(owner: int) | InHand(owner: int) | Unowned

  /** `rank` increases strictly along every list, which is what makes the chains acyclic. */
  datatype Cell = Cell(place: Place, prev: int, next: int, rank: int, lockL: int, lockR: int)

  datatype View = View(cells: seq<Cell>, first: seq<int>, last: seq<int>, free: seq<int>)

  /** The element whose word the thread at pc has locked entirely. */
  function FullOf(pc: PC): int {
    if !pc.Unlink? then NOBODY
    else
      match pc.u
      case LoadTarget(_) => NOBODY
      case LockTarget(_, _) => NOBODY
      case RestoreLeft(_, _, _, _) => NOBODY
      case u => u.e
  }

  /** The left neighbour, whose right half the thread has locked. */
  function LeftOf(pc: PC): int {
    if !pc.Unlink? then NOBODY
    else
      match pc.u
      case LockRight(_, tl, _, _) => tl.left
      case RestoreBoth(_, tl, _) => tl.left
      case RestoreLeft(_, l, _, _) => l
      case RelinkLeft(_, tl, _, _) => tl.left
      case ReloadLeft(_, tl, _) => tl.left
      case _ => NOBODY
  }

  /** The right neighbour, whose left half the thread has locked. */
  function RightOf(pc: PC): int {
    if !pc.Unlink? then NOBODY
    else
      match pc.u
      case RelinkLeft(_, tl, _, _) => tl.right
      case ReloadLeft(_, tl, _) => tl.right
      case RelinkRight(_, tl, _) => tl.right
      case ReloadRight(_, tl) => tl.right
      case _ => NOBODY
  }

  /** The element the thread has taken out of every list. */
  function HandOf(pc: PC): int {
    match pc
    case Unlink(u) =>
      (match u
       case RelinkRight(e, _, _) => e
       case ReloadRight(e, _) => e
       case Detach(e) => e
       case _ => NOBODY)
    case Link(e, _, k) => if k.LinkHead? then NOBODY else e
    case Trim(m) =>
      (match m
       case TailStore(x, _) => x
       case HeadEmpty(x) => x
       case TailDetach(x) => x
       case _ => NOBODY)
    case Pool(p) =>
      (match p
       case Push(e) => e
       case PushStore(e) => e
       case _ => NOBODY)
  }

  /** The thread is on its way to refill its free list. */
  predicate Refilling(pc: PC) {
    match pc
    case Unlink(_) => false
    case Link(_, isNew, _) => isNew
    case Trim(_) => true
    case Pool(p) => p.CheckFree? || p.Push? || p.PushStore?
  }

  ghost predicate Sized(s: State, v: View) {
    && Shaped(s) && |v.cells| == |s.words|
    && |s.threads| == |v.first| == |v.last| == |v.free|
  }

  predicate Has(v: View, x: int) { 0 <= x < |v.cells| }

  // ---- one element ----

  ghost predicate Linked(v: View, x: int)
    requires Has(v, x)
  {
    var c := v.cells[x];
    && (c.prev != END ==>
          && Has(v, c.prev)
          && v.cells[c.prev].place == c.place
          && v.cells[c.prev].next == x
          && v.cells[c.prev].rank < c.rank)
    && (c.next != END ==>
          && Has(v, c.next)
          && v.cells[c.next].place == c.place
          && v.cells[c.next].prev == x
          && c.rank < v.cells[c.next].rank)
  }

  ghost predicate ListElem(w: Word, v: View, x: int, o: int)
    requires Has(v, x)
  {
    var c := v.cells[x];
    && 0 <= o < |v.first| == |v.last|
    && Linked(v, x)
    && (c.prev == END <==> x == v.first[o])
    && (c.next == END <==> x == v.last[o])
    && w.left == (if c.lockL == NOBODY then c.prev else LOCK)
    && w.right == (if c.lockR == NOBODY then c.next else LOCK)
    && NOBODY <= c.lockL < |v.first| && NOBODY <= c.lockR < |v.first|
    && (c.lockL != NOBODY && c.lockR != NOBODY ==> c.lockL == c.lockR)
    && (c.lockL != NOBODY || c.lockR != NOBODY ==> c.prev != END && c.next != END)
  }

  ghost predicate FreeElem(w: Word, v: View, x: int, o: int)
    requires Has(v, x)
  {
    var c := v.cells[x];
    && 0 <= o < |v.free|
    && Linked(v, x)
    && (c.prev == END <==> x == v.free[o])
    && w == Word(END, c.next)
    && c.lockL == c.lockR == NOBODY
  }

  ghost predicate HandElem(w: Word, v: View, x: int, o: int)
    requires Has(v, x)
  {
    var c := v.cells[x];
    && 0 <= o < |v.first|
    && ((c.lockL == c.lockR == o && w == Word(LOCK, LOCK))
        || (c.lockL == c.lockR == NOBODY && !Marked(w, LOCK) && Marked(w, END)))
  }

  ghost predicate ElemOK(w: Word, v: View, x: int)
    requires Has(v, x)
  {
    match v.cells[x].place
    case InList(o) => ListElem(w, v, x, o)
    case InFree(o) => FreeElem(w, v, x, o)
    case InHand(o) => HandElem(w, v, x, o)
    case Unowned => w.left == END && w.right != LOCK && v.cells[x].lockL == v.cells[x].lockR == NOBODY
  }

  predicate Chained(place: Place) { place.InList? || place.InFree? }

  /** Element y, its neighbours and its being at an end look the same in both views. */
  ghost predicate Undisturbed(v: View, v': View, y: int)
    requires Has(v, y) && |v'.cells| == |v.cells|
  {
    var c := v.cells[y];
    && v'.cells[y] == c && SameEnds(v, v', y, c.place)
    && (Chained(c.place) && Has(v, c.prev) ==>
          var p, p' := v.cells[c.prev], v'.cells[c.prev]; p'.place == p.place && p'.next == p.next && p'.rank == p.rank)
    && (Chained(c.place) && Has(v, c.next) ==>
          var n, n' := v.cells[c.next], v'.cells[c.next]; n'.place == n.place && n'.prev == n.prev && n'.rank == n.rank)
  }

  ghost predicate SameEnds(v: View, v': View, y: int, place: Place) {
    && |v'.first| == |v.first| && |v'.last| == |v.last| && |v'.free| == |v.free|
    && (place.InList? && 0 <= place.owner < |v.first| ==> (y == v'.first[place.owner] <==> y == v.first[place.owner]))
    && (place.InList? && 0 <= place.owner < |v.last| ==> (y == v'.last[place.owner] <==> y == v.last[place.owner]))
    && (place.InFree? && 0 <= place.owner < |v.free| ==> (y == v'.free[place.owner] <==> y == v.free[place.owner]))
  }

  lemma StaysOK(w: Word, v: View, v': View, y: int)
    requires Has(v, y) && |v'.cells| == |v.cells| && ElemOK(w, v, y) && Undisturbed(v, v', y)
    ensures ElemOK(w, v', y)
  {}

  // ---- one thread ----

  /** Element e is locked by t and stands between tl.left and tl.right. */
  ghost predicate Targeted(v: View, t: int, e: int, tl: Word) {
    && Has(v, e)
    && var c := v.cells[e];
    && c.place.InList? && c.lockL == c.lockR == t
    && c.prev == tl.left && c.next == tl.right
  }

  /** Element l has its right half locked by t, and its true word is ll. */
  ghost predicate LeftHeld(v: View, t: int, l: int, ll: Word) {
    && Has(v, l)
    && var c := v.cells[l];
    && c.place.InList? && c.lockL == NOBODY && c.lockR == t
    && c.prev == ll.left && c.next == ll.right
  }

  ghost predicate RightHeld(v: View, t: int, r: int, l: int) {
    && Has(v, r)
    && var c := v.cells[r];
    && c.place.InList? && c.lockL == t && c.lockR == NOBODY && c.prev == l
  }

  /** All three words of the unlinking are locked by t. */
  ghost predicate Gripped(v: View, t: int, e: int, tl: Word) {
    && Targeted(v, t, e, tl) && RightHeld(v, t, tl.right, e)
    && Has(v, tl.left) && LeftHeld(v, t, tl.left, Word(v.cells[tl.left].prev, e))
  }

  ghost predicate InHandOf(v: View, t: int, e: int) {
    Has(v, e) && v.cells[e].place == InHand(t)
  }

  /** Element e is out; its right neighbour still waits for its new left link. */
  ghost predicate Bridged(v: View, t: int, e: int, tl: Word) {
    InHandOf(v, t, e) && v.cells[e].lockL == t && RightHeld(v, t, tl.right, tl.left)
  }

  ghost predicate Held(v: View, t: int, e: int) {
    InHandOf(v, t, e) && v.cells[e].lockL == NOBODY
  }

  ghost predicate AtUnlink(v: View, t: int, u: Unlinking) {
    match u
    case LoadTarget(e) => Has(v, e)
    case LockTarget(e, tl) => Has(v, e) && !Marked(tl, END) && !Marked(tl, LOCK)
    case LockRight(e, tl, ll, _) => Targeted(v, t, e, tl) && LeftHeld(v, t, tl.left, ll)
    case RestoreBoth(e, tl, ll) => Targeted(v, t, e, tl) && LeftHeld(v, t, tl.left, ll)
    case RestoreLeft(e, l, ll, _) => Has(v, e) && LeftHeld(v, t, l, ll)
    case RelinkLeft(e, tl, _, _) => Gripped(v, t, e, tl)
    case ReloadLeft(e, tl, _) => Gripped(v, t, e, tl)
    case RelinkRight(e, tl, _) => Bridged(v, t, e, tl)
    case ReloadRight(e, tl) => Bridged(v, t, e, tl)
    case Detach(e) => InHandOf(v, t, e) && v.cells[e].lockL == t
    case _ => Targeted(v, t, u.e, u.tl)
  }

  ghost predicate AtLink(words: seq<Word>, v: View, t: int, e: int, k: Linking)
    requires |v.cells| == |words| && 0 <= t < |v.first|
  {
    match k
    case LinkStore => Held(v, t, e)
    case LinkLoad(h) => Held(v, t, e) && h == v.first[t] != END && words[e] == Word(END, h)
    case LinkOld(h, w) =>
      && Held(v, t, e) && h == v.first[t] != END && words[e] == Word(END, h)
      && Has(v, h) && w.right == v.cells[h].next
    case LinkTail => Held(v, t, e) && v.first[t] == END && words[e] == Word(END, END)
    case LinkHead => v.first[t] == e != END
  }

  ghost predicate AtTrim(v: View, t: int, m: Trimming)
    requires 0 <= t < |v.last| == |v.first|
  {
    match m
    case TailRead => v.last[t] != END
    case TailLoad(x) => x == v.last[t] != END
    case TailStore(x, p) => Held(v, t, x) && v.last[t] == p
    case TailEmpty(x) => x == v.last[t] != END && Has(v, x) && v.cells[x].prev == END
    case HeadEmpty(x) => Held(v, t, x) && v.first[t] == END
    case TailDetach(x) => Held(v, t, x)
    case _ => m.x == v.last[t] != END && Has(v, m.x) && m.p == v.cells[m.x].prev != END
  }

  ghost predicate AtPool(words: seq<Word>, v: View, t: int, p: Pooling, spare: int)
    requires |v.cells| == |words| && 0 <= t < |v.free| == |v.first|
  {
    match p
    case Idle => true
    case Pop(e) => e == v.free[t] != END
    case PopStore(e, next) => e == v.free[t] != END && Has(v, e) && next == v.cells[e].next
    case Probe => spare != END
    case CheckFree => v.first[t] != END
    case Push(e) => Held(v, t, e)
    case PushStore(e) => Held(v, t, e) && words[e] == Word(END, v.free[t])
    case Wild => false
  }

  /** What the thread relies on at its program counter. */
  ghost predicate At(words: seq<Word>, v: View, t: int, th: Thread)
    requires |v.cells| == |words| && 0 <= t < |v.first| == |v.last| == |v.free|
  {
    match th.pc
    case Unlink(u) => AtUnlink(v, t, u)
    case Link(e, _, k) => AtLink(words, v, t, e, k)
    case Trim(m) => AtTrim(v, t, m)
    case Pool(p) => AtPool(words, v, t, p, th.spare)
  }

  /** Exactly the halves and elements the program counter says are the thread's. */
  ghost predicate Owns(c: Cell, t: int, th: Thread, x: int) {
    && (c.lockL == t <==> x == FullOf(th.pc) || x == RightOf(th.pc))
    && (c.lockR == t <==> x == FullOf(th.pc) || x == LeftOf(th.pc))
    && (c.place == InHand(t) <==> x == HandOf(th.pc) || x == th.spare)
  }

  /** The popped element is in hand and idle, and without one the free list is not empty
      unless the thread is about to refill it. */
  ghost predicate SpareOK(v: View, t: int, th: Thread)
    requires 0 <= t < |v.free|
  {
    && (th.spare != END ==>
          && Held(v, t, th.spare) && th.spare != HandOf(th.pc) && !Refilling(th.pc)
          && (th.pc.Unlink? || th.pc.Link? || th.pc == Pool(Probe)))
    && (th.spare == END && !Refilling(th.pc) ==> v.free[t] != END)
  }

  ghost predicate ThreadOK(s: State, v: View, t: int)
    requires Sized(s, v) && 0 <= t < |s.threads|
  {
    var th := s.threads[t];
    && At(s.words, v, t, th)
    && SpareOK(v, t, th)
    && forall x {:trigger Owns(v.cells[x], t, th, x)} :: Has(v, x) ==> Owns(v.cells[x], t, th, x)
  }

  ghost predicate OwnerOK(s: State, v: View, t: int)
    requires Sized(s, v) && 0 <= t < |s.threads|
  {
    var pc := s.threads[t].pc;
    && (v.first[t] == END <==> v.last[t] == END)
    && (v.first[t] != END ==> Has(v, v.first[t]) && v.cells[v.first[t]].place == InList(t))
    && (v.last[t] != END ==> Has(v, v.last[t]) && v.cells[v.last[t]].place == InList(t))
    && (v.free[t] != END ==> Has(v, v.free[t]) && v.cells[v.free[t]].place == InFree(t))
    && s.freeHead[t] == v.free[t]
    && (!(pc.Link? && pc.k.LinkHead?) && !(pc.Trim? && pc.m.HeadEmpty?) ==> s.head[t] == v.first[t])
    && (!(pc.Trim? && pc.m.TailStore?) ==> s.tail[t] == v.last[t])
  }

  ghost predicate Inv(s: State, v: View) {
    && Sized(s, v)
    && (forall x {:trigger ElemOK(s.words[x], v, x)} :: Has(v, x) ==> ElemOK(s.words[x], v, x))
    && (forall t {:trigger OwnerOK(s, v, t)} :: 0 <= t < |s.threads| ==> OwnerOK(s, v, t))
    && (forall t {:trigger ThreadOK(s, v, t)} :: 0 <= t < |s.threads| ==> ThreadOK(s, v, t))
  }

  // ---- non-interference ----

  ghost predicate SameLocks(c: Cell, d: Cell, u: int) {
    && (c.lockL == u <==> d.lockL == u)
    && (c.lockR == u <==> d.lockR == u)
    && (c.place == InHand(u) <==> d.place == InHand(u))
  }

  /** Element x is protected for thread u: u locked it, holds it, or it ends one of u's lists. */
  ghost predicate Mine(v: View, u: int, x: int)
    requires Has(v, x) && 0 <= u < |v.first| == |v.last| == |v.free|
  {
    var c := v.cells[x];
    c.lockL == u || c.lockR == u || c.place == InHand(u)
    || x == v.first[u] || x == v.last[u] || x == v.free[u]
  }

  ghost predicate SameSize(s: State, v: View, s': State, v': View) {
    Sized(s, v) && Sized(s', v') && |s.words| == |s'.words| && |s.threads| == |s'.threads|
  }

  /** What a step of another thread leaves alone for thread u. */
  ghost predicate Spares(s: State, v: View, s': State, v': View, u: int)
    requires SameSize(s, v, s', v') && 0 <= u < |s.threads|
  {
    && s'.threads[u] == s.threads[u] && s'.head[u] == s.head[u]
    && s'.tail[u] == s.tail[u] && s'.freeHead[u] == s.freeHead[u]
    && v'.first[u] == v.first[u] && v'.last[u] == v.last[u] && v'.free[u] == v.free[u]
    && (forall x {:trigger v'.cells[x]} {:trigger v.cells[x]} :: Has(v, x) ==>
          && SameLocks(v.cells[x], v'.cells[x], u)
          && (Mine(v, u, x) ==> v'.cells[x] == v.cells[x] && s'.words[x] == s.words[x]))
  }

  lemma AtUnharmed(s: State, v: View, s': State, v': View, u: int)
    requires SameSize(s, v, s', v') && 0 <= u < |s.threads| && Spares(s, v, s', v', u)
    requires At(s.words, v, u, s.threads[u]) && OwnerOK(s, v, u)
    ensures At(s'.words, v', u, s.threads[u])
  {}

  lemma Unharmed(s: State, v: View, s': State, v': View, u: int)
    requires SameSize(s, v, s', v') && 0 <= u < |s.threads| && Spares(s, v, s', v', u)
    requires ThreadOK(s, v, u) && OwnerOK(s, v, u)
    ensures ThreadOK(s', v', u) && OwnerOK(s', v', u)
  {
    var th := s.threads[u];
    forall x | Has(v', x) ensures Owns(v'.cells[x], u, th, x) {
      assert Owns(v.cells[x], u, th, x) && SameLocks(v.cells[x], v'.cells[x], u);
    }
    AtUnharmed(s, v, s', v', u);
  }

  /** Enough to re-establish the invariant after a step of thread t. */
  lemma Settle(s: State, v: View, s': State, v': View, t: int)
    requires Inv(s, v) && SameSize(s, v, s', v') && 0 <= t < |s.threads|
    requires forall x {:trigger ElemOK(s'.words[x], v', x)} :: Has(v', x) ==> ElemOK(s'.words[x], v', x)
    requires OwnerOK(s', v', t) && ThreadOK(s', v', t)
    requires forall u {:trigger Spares(s, v, s', v', u)} :: 0 <= u < |s.threads| && u != t ==> Spares(s, v, s', v', u)
    ensures Inv(s', v')
  {
    forall u | 0 <= u < |s.threads| ensures OwnerOK(s', v', u) && ThreadOK(s', v', u) {
      assert OwnerOK(s, v, u) && ThreadOK(s, v, u);
      if u != t {
        assert Spares(s, v, s', v', u);
        Unharmed(s, v, s', v', u);
      }
    }
  }
}
