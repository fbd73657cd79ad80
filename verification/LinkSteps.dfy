/** Every step of every thread preserves the invariant of the link-word transition system. */
module LinkSteps {
  import opened LinkWords
  import opened LinkInvariant

  function Set(v: View, x: int, c: Cell): View
    requires 0 <= x < |v.cells|
  {
    v.(cells := v.cells[x := c])
  }

  function Unlocked(v: View, e: int): View
    requires 0 <= e < |v.cells|
  {
    Set(v, e, v.cells[e].(lockL := NOBODY, lockR := NOBODY))
  }

  /** Element e leaves its list for thread t's hands; tl.left and tl.right become neighbours. */
  function Bypassed(v: View, t: int, e: int, tl: Word): View
    requires 0 <= e < |v.cells| && 0 <= tl.left < |v.cells| && 0 <= tl.right < |v.cells|
  {
    var v1 := Set(v, tl.left, v.cells[tl.left].(next := tl.right, lockR := NOBODY));
    var v2 := Set(v1, tl.right, v1.cells[tl.right].(prev := tl.left));
    Set(v2, e, v2.cells[e].(place := InHand(t)))
  }

  /** How the view follows a step of unlinkElement. */
  function FollowUnlink(s: State, v: View, t: int, u: Unlinking, c: Choice): View
    requires |v.cells| == |s.words|
  {
    match u
    case LockTarget(e, tl) =>
      if !In(s, e) || c.Spurious? || s.words[e] != tl then v
      else Set(v, e, v.cells[e].(lockL := t, lockR := t))
    case LockLeft(e, tl, ll, rl) =>
      if !In(s, e) || !In(s, tl.left) then v
      else if ll.left == END || ll.left == LOCK || ll.right != e then Unlocked(v, e)
      else if c.Spurious? || s.words[tl.left] != ll then v
      else Set(v, tl.left, v.cells[tl.left].(lockR := t))
    case RestoreTarget(e, _) => if In(s, e) then Unlocked(v, e) else v
    case LockRight(e, tl, ll, rl) =>
      if !In(s, e) || !In(s, tl.right) then v
      else if rl.right == END || rl.right == LOCK || rl.left != e then Unlocked(v, e)
      else if c.Spurious? || s.words[tl.right] != rl then v
      else Set(v, tl.right, v.cells[tl.right].(lockL := t))
    case RestoreBoth(e, _, _) => if In(s, e) then Unlocked(v, e) else v
    case RestoreLeft(_, l, _, _) => if In(s, l) then Set(v, l, v.cells[l].(lockR := NOBODY)) else v
    case RelinkLeft(e, tl, lx, _) =>
      if !In(s, e) || !In(s, tl.left) || !In(s, tl.right) || c.Spurious? || s.words[tl.left] != lx then v
      else Bypassed(v, t, e, tl)
    case RelinkRight(e, tl, rx) =>
      if !In(s, tl.right) || c.Spurious? || s.words[tl.right] != rx then v
      else Set(v, tl.right, v.cells[tl.right].(lockL := NOBODY))
    case Detach(e) => if In(s, e) then Unlocked(v, e) else v
    case _ => v
  }

  // ---- the shapes a step can have ----

  ghost predicate SameHands(a: Thread, b: Thread) {
    || (HandOf(a.pc) == HandOf(b.pc) && a.spare == b.spare)
    || (HandOf(a.pc) == NOBODY && a.spare == HandOf(b.pc) && b.spare == END)
  }

  /** Two threads with the same locks and the same elements in hand. */
  ghost predicate SameClaims(a: Thread, b: Thread) {
    && FullOf(a.pc) == FullOf(b.pc) && LeftOf(a.pc) == LeftOf(b.pc) && RightOf(a.pc) == RightOf(b.pc)
    && SameHands(a, b)
  }

  /** A step that touches neither words nor list ends and keeps all claims. */
  lemma Quiet(s: State, v: View, s': State, t: int, th: Thread)
    requires Inv(s, v) && Runs(s, t)
    requires s' == s.(threads := s.threads[t := th])
    requires SameClaims(s.threads[t], th)
    requires OwnerOK(s', v, t) && At(s.words, v, t, th) && SpareOK(v, t, th)
    ensures Inv(s', v)
  {
    assert ThreadOK(s, v, t);
    forall x | Has(v, x) ensures Owns(v.cells[x], t, th, x) && ElemOK(s'.words[x], v, x) {
      assert Owns(v.cells[x], t, s.threads[t], x) && ElemOK(s.words[x], v, x);
    }
    Settle(s, v, s', v, t);
  }

  /** Only the word and the locks of element x change, and only thread t's locks. */
  ghost predicate Regrips(s: State, v: View, s': State, v': View, t: int, x: int, th: Thread) {
    && Sized(s, v) && Runs(s, t) && In(s, x) && |s'.words| == |s.words| && |v'.cells| == |v.cells|
    && s' == Put(s, x, s'.words[x]).(threads := s.threads[t := th])
    && v' == Set(v, x, v'.cells[x])
    && var c, d := v.cells[x], v'.cells[x];
    && d == c.(lockL := d.lockL, lockR := d.lockR)
    && c.lockL in {NOBODY, t} && c.lockR in {NOBODY, t}
    && d.lockL in {NOBODY, t} && d.lockR in {NOBODY, t}
    && c.place.InList? && c.prev != END && c.next != END
    && s'.words[x] == Word(if d.lockL == t then LOCK else c.prev, if d.lockR == t then LOCK else c.next)
  }

  lemma RegripElem(s: State, v: View, s': State, v': View, t: int, x: int, th: Thread, y: int)
    requires Inv(s, v) && Regrips(s, v, s', v', t, x, th) && In(s, y)
    ensures ElemOK(s'.words[y], v', y)
  {
    assert ElemOK(s.words[y], v, y);
    if y == x {
      RegripSelf(s.words[x], v, t, x, v'.cells[x]);
    } else {
      RegripFar(v, v', x, y);
      StaysOK(s.words[y], v, v', y);
    }
  }

  lemma RegripFar(v: View, v': View, x: int, y: int)
    requires Has(v, x) && Has(v, y) && y != x && |v'.cells| == |v.cells| && v' == Set(v, x, v'.cells[x])
    requires var c, d := v.cells[x], v'.cells[x]; d == c.(lockL := d.lockL, lockR := d.lockR)
    ensures Undisturbed(v, v', y)
  {}

  lemma RegripSelf(w: Word, v: View, t: int, x: int, d: Cell)
    requires Has(v, x) && ElemOK(w, v, x) && v.cells[x].place.InList?
    requires d == v.cells[x].(lockL := d.lockL, lockR := d.lockR)
    requires d.lockL in {NOBODY, t} && d.lockR in {NOBODY, t} && v.cells[x].prev != END && v.cells[x].next != END
    requires 0 <= t < |v.first| && x != v.cells[x].prev && x != v.cells[x].next
    ensures var c := v.cells[x];
            ElemOK(Word(if d.lockL == t then LOCK else c.prev, if d.lockR == t then LOCK else c.next), Set(v, x, d), x)
  {}

  lemma RegripSpares(s: State, v: View, s': State, v': View, t: int, x: int, th: Thread, u: int)
    requires Inv(s, v) && Regrips(s, v, s', v', t, x, th) && 0 <= u < |s.threads| && u != t
    ensures Sized(s', v') && Spares(s, v, s', v', u)
  {
    assert ElemOK(s.words[x], v, x) && OwnerOK(s, v, u);
    assert !Mine(v, u, x);
  }

  /** The same claim, or one of them on x alone. */
  ghost predicate SameBut(a: int, b: int, x: int) { a == b || (a in {x, NOBODY} && b in {x, NOBODY}) }

  ghost predicate ClaimsBut(a: PC, b: PC, x: int) {
    SameBut(FullOf(a), FullOf(b), x) && SameBut(LeftOf(a), LeftOf(b), x) && SameBut(RightOf(a), RightOf(b), x)
  }

  lemma OwnsStill(c: Cell, t: int, a: Thread, b: Thread, x: int, y: int)
    requires Owns(c, t, a, y) && 0 <= y < END && y != x && ClaimsBut(a.pc, b.pc, x) && SameHands(a, b)
    ensures Owns(c, t, b, y)
  {}

  /** A step of thread t that rewrites the word and the locks of a single list element. */
  lemma Regrip(s: State, v: View, s': State, v': View, t: int, x: int, th: Thread)
    requires Inv(s, v) && Regrips(s, v, s', v', t, x, th)
    requires At(s'.words, v', t, th) && SpareOK(v', t, th)
    requires Owns(v'.cells[x], t, th, x)
    requires ClaimsBut(s.threads[t].pc, th.pc, x) && SameHands(s.threads[t], th)
    requires s.threads[t].pc.Unlink? && (th.pc.Unlink? || th.pc.Pool?)
    ensures Inv(s', v')
  {
    forall y | Has(v', y) ensures ElemOK(s'.words[y], v', y) { RegripElem(s, v, s', v', t, x, th, y); }
    forall u | 0 <= u < |s.threads| && u != t ensures Spares(s, v, s', v', u) {
      RegripSpares(s, v, s', v', t, x, th, u);
    }
    RegripThread(s, v, s', v', t, x, th);
    Settle(s, v, s', v', t);
  }

  lemma RegripThread(s: State, v: View, s': State, v': View, t: int, x: int, th: Thread)
    requires Inv(s, v) && Regrips(s, v, s', v', t, x, th)
    requires At(s'.words, v', t, th) && SpareOK(v', t, th) && Owns(v'.cells[x], t, th, x)
    requires ClaimsBut(s.threads[t].pc, th.pc, x) && SameHands(s.threads[t], th)
    requires s.threads[t].pc.Unlink? && (th.pc.Unlink? || th.pc.Pool?)
    ensures Sized(s', v') && OwnerOK(s', v', t) && ThreadOK(s', v', t)
  {
    assert ThreadOK(s, v, t) && OwnerOK(s, v, t);
    forall y | Has(v', y) ensures Owns(v'.cells[y], t, th, y) {
      assert Owns(v.cells[y], t, s.threads[t], y);
      if y != x { OwnsStill(v.cells[y], t, s.threads[t], th, x, y); }
    }
  }

  // ---- unlinkElement ----

  ghost predicate Unlinks(s: State, v: View, t: int, u: Unlinking) {
    Inv(s, v) && Runs(s, t) && s.threads[t].pc == Unlink(u)
  }

  /** Loads, and compare-and-swaps that fail. */
  lemma UnlinkQuiet(s: State, v: View, t: int, u: Unlinking, u': Unlinking)
    requires Unlinks(s, v, t, u) && AtUnlink(v, t, u')
    requires SameClaims(Thread(Unlink(u), END), Thread(Unlink(u'), END))
    ensures Inv(Goto(s, t, Unlink(u')), v)
  {
    assert ThreadOK(s, v, t) && OwnerOK(s, v, t);
    Quiet(s, v, Goto(s, t, Unlink(u')), t, s.threads[t].(pc := Unlink(u')));
  }

  lemma LoadTargetStep(s: State, v: View, t: int, u: Unlinking, c: Choice)
    requires Unlinks(s, v, t, u) && u.LoadTarget?
    ensures Inv(StepUnlink(s, t, u, c), v)
  {
    assert ThreadOK(s, v, t) && OwnerOK(s, v, t);
    var s' := StepUnlink(s, t, u, c);
    Quiet(s, v, s', t, s'.threads[t]);
  }

  lemma LockTargetStep(s: State, v: View, t: int, u: Unlinking, c: Choice)
    requires Unlinks(s, v, t, u) && u.LockTarget?
    ensures Inv(StepUnlink(s, t, u, c), FollowUnlink(s, v, t, u, c))
  {
    assert ThreadOK(s, v, t) && ElemOK(s.words[u.e], v, u.e);
    if c.Spurious? || s.words[u.e] != u.tl {
      UnlinkQuiet(s, v, t, u, LoadTarget(u.e));
    } else {
      var s', v' := StepUnlink(s, t, u, c), FollowUnlink(s, v, t, u, c);
      assert Owns(v.cells[u.e], t, s.threads[t], u.e);
      Regrip(s, v, s', v', t, u.e, s'.threads[t]);
    }
  }

  lemma LoadNeighbourStep(s: State, v: View, t: int, u: Unlinking, c: Choice)
    requires Unlinks(s, v, t, u) && (u.LoadLeft? || u.LoadRight?)
    ensures Inv(StepUnlink(s, t, u, c), v)
  {
    assert ThreadOK(s, v, t) && ElemOK(s.words[u.e], v, u.e);
    if u.LoadLeft? {
      UnlinkQuiet(s, v, t, u, LoadRight(u.e, u.tl, s.words[u.tl.left]));
    } else {
      UnlinkQuiet(s, v, t, u, LockLeft(u.e, u.tl, u.ll, s.words[u.tl.right]));
    }
  }

  /** Giving the target's word back. */
  lemma Release(s: State, v: View, t: int, u: Unlinking, s': State)
    requires Unlinks(s, v, t, u) && (u.LockLeft? || u.RestoreTarget? || u.LockRight? || u.RestoreBoth?)
    requires Has(v, u.e)
    requires |s'.threads| == |s.threads|
    requires s' == Put(s, u.e, u.tl).(threads := s.threads[t := s'.threads[t]])
    requires var pc := s'.threads[t].pc;
             && (pc.Unlink? || pc.Pool?)
             && FullOf(pc) == RightOf(pc) == NOBODY && LeftOf(pc) == LeftOf(Unlink(u))
    requires SameHands(s.threads[t], s'.threads[t])
    requires At(s'.words, Unlocked(v, u.e), t, s'.threads[t]) && SpareOK(Unlocked(v, u.e), t, s'.threads[t])
    ensures Inv(s', Unlocked(v, u.e))
  {
    assert ThreadOK(s, v, t) && ElemOK(s.words[u.e], v, u.e);
    assert Owns(v.cells[u.e], t, s.threads[t], u.e);
    Regrip(s, v, s', Unlocked(v, u.e), t, u.e, s'.threads[t]);
  }

  /** The locked target has neighbours, and the thread may go back to it. */
  lemma Neighbours(s: State, v: View, t: int, u: Unlinking)
    requires Unlinks(s, v, t, u) && (u.LockLeft? || u.LockRight?)
    ensures In(s, u.e) && In(s, u.tl.left) && In(s, u.tl.right)
    ensures u.LockLeft? ==> AtUnlink(v, t, RestoreTarget(u.e, u.tl))
    ensures u.LockRight? ==> AtUnlink(v, t, RestoreBoth(u.e, u.tl, u.ll))
  {
    assert ThreadOK(s, v, t) && ElemOK(s.words[u.e], v, u.e);
  }

  lemma GrabLeft(s: State, v: View, t: int, u: Unlinking)
    requires Unlinks(s, v, t, u) && u.LockLeft?
    requires In(s, u.tl.left) && s.words[u.tl.left] == u.ll && u.ll.left != END && u.ll.left != LOCK
    requires u.ll.right == u.e
    ensures Inv(Store(s, t, u.tl.left, Word(u.ll.left, LOCK), Unlink(LockRight(u.e, u.tl, u.ll, u.rl))),
                Set(v, u.tl.left, v.cells[u.tl.left].(lockR := t)))
  {
    var l := u.tl.left;
    assert ThreadOK(s, v, t) && ElemOK(s.words[u.e], v, u.e) && ElemOK(s.words[l], v, l);
    assert Owns(v.cells[l], t, s.threads[t], l);
    var s' := Store(s, t, l, Word(u.ll.left, LOCK), Unlink(LockRight(u.e, u.tl, u.ll, u.rl)));
    Regrip(s, v, s', Set(v, l, v.cells[l].(lockR := t)), t, l, s'.threads[t]);
  }

  lemma MissLeft(s: State, v: View, t: int, u: Unlinking, c: Choice)
    requires Unlinks(s, v, t, u) && u.LockLeft? && In(s, u.e) && In(s, u.tl.left)
    requires u.ll.left == END || u.ll.left == LOCK || u.ll.right != u.e
    ensures Inv(StepUnlink(s, t, u, c), Unlocked(v, u.e))
  {
    assert ThreadOK(s, v, t) && ElemOK(s.words[u.e], v, u.e);
    Release(s, v, t, u, StepUnlink(s, t, u, c));
  }

  lemma LockLeftStep(s: State, v: View, t: int, u: Unlinking, c: Choice)
    requires Unlinks(s, v, t, u) && u.LockLeft?
    ensures Inv(StepUnlink(s, t, u, c), FollowUnlink(s, v, t, u, c))
  {
    var LockLeft(e, tl, ll, rl) := u;
    Neighbours(s, v, t, u);
    if ll.left == END || ll.left == LOCK || ll.right != e {
      MissLeft(s, v, t, u, c);
    } else if c.Spurious? || s.words[tl.left] != ll {
      UnlinkQuiet(s, v, t, u, RestoreTarget(e, tl));
    } else {
      GrabLeft(s, v, t, u);
    }
  }

  lemma RestoreStep(s: State, v: View, t: int, u: Unlinking, c: Choice)
    requires Unlinks(s, v, t, u) && (u.RestoreTarget? || u.RestoreBoth?)
    ensures Inv(StepUnlink(s, t, u, c), FollowUnlink(s, v, t, u, c))
  {
    assert ThreadOK(s, v, t);
    assert ElemOK(s.words[u.e], v, u.e);
    Release(s, v, t, u, StepUnlink(s, t, u, c));
  }

  /** All three words are locked. */
  function Gripping(u: Unlinking): PC
    requires u.LockRight?
  {
    Unlink(RelinkLeft(u.e, u.tl, Word(u.ll.left, LOCK), Word(LOCK, u.rl.right)))
  }

  /** A right neighbour whose word reads as loaded is not locked. */
  lemma RightFree(s: State, v: View, t: int, u: Unlinking)
    requires Unlinks(s, v, t, u) && u.LockRight? && In(s, u.tl.right) && s.words[u.tl.right] == u.rl
    requires u.rl.right != END && u.rl.right != LOCK && u.rl.left == u.e
    ensures Targeted(v, t, u.e, u.tl) && LeftHeld(v, t, u.tl.left, u.ll) && u.ll.right == u.e
    ensures u.tl.right != u.e && u.tl.right != u.tl.left
    ensures var c := v.cells[u.tl.right];
            && c.place.InList? && c.lockL == c.lockR == NOBODY && c.prev == u.e && c.next == u.rl.right != END
  {
    assert ThreadOK(s, v, t) && ElemOK(s.words[u.e], v, u.e) && ElemOK(s.words[u.tl.right], v, u.tl.right);
  }

  lemma GripAt(v: View, t: int, u: Unlinking)
    requires u.LockRight? && Targeted(v, t, u.e, u.tl) && LeftHeld(v, t, u.tl.left, u.ll) && Has(v, u.tl.right)
    requires u.tl.right != u.e && u.tl.right != u.tl.left && u.ll.right == u.e
    requires var c := v.cells[u.tl.right]; c.place.InList? && c.lockL == c.lockR == NOBODY && c.prev == u.e
    ensures AtUnlink(Set(v, u.tl.right, v.cells[u.tl.right].(lockL := t)), t, Gripping(u).u)
  {}

  lemma GrabRight(s: State, v: View, t: int, u: Unlinking)
    requires Unlinks(s, v, t, u) && u.LockRight?
    requires In(s, u.tl.right) && s.words[u.tl.right] == u.rl && u.rl.right != END && u.rl.right != LOCK
    requires u.rl.left == u.e
    ensures Inv(Store(s, t, u.tl.right, Word(LOCK, u.rl.right), Gripping(u)),
                Set(v, u.tl.right, v.cells[u.tl.right].(lockL := t)))
  {
    var r := u.tl.right;
    RightFree(s, v, t, u);
    assert ThreadOK(s, v, t);
    assert Owns(v.cells[r], t, s.threads[t], r);
    GripAt(v, t, u);
    var s' := Store(s, t, r, Word(LOCK, u.rl.right), Gripping(u));
    Regrip(s, v, s', Set(v, r, v.cells[r].(lockL := t)), t, r, s'.threads[t]);
  }

  lemma MissRight(s: State, v: View, t: int, u: Unlinking, retry: bool)
    requires Unlinks(s, v, t, u) && u.LockRight? && In(s, u.e)
    ensures Inv(Store(s, t, u.e, u.tl, Unlink(RestoreLeft(u.e, u.tl.left, u.ll, retry))), Unlocked(v, u.e))
  {
    assert ThreadOK(s, v, t) && ElemOK(s.words[u.e], v, u.e);
    Release(s, v, t, u, Store(s, t, u.e, u.tl, Unlink(RestoreLeft(u.e, u.tl.left, u.ll, retry))));
  }

  lemma LockRightStep(s: State, v: View, t: int, u: Unlinking, c: Choice)
    requires Unlinks(s, v, t, u) && u.LockRight?
    ensures Inv(StepUnlink(s, t, u, c), FollowUnlink(s, v, t, u, c))
  {
    var LockRight(e, tl, ll, rl) := u;
    Neighbours(s, v, t, u);
    if rl.right == END || rl.right == LOCK || rl.left != e {
      MissRight(s, v, t, u, rl.right != END);
    } else if c.Spurious? || s.words[tl.right] != rl {
      UnlinkQuiet(s, v, t, u, RestoreBoth(e, tl, ll));
    } else {
      GrabRight(s, v, t, u);
    }
  }

  lemma RestoreLeftStep(s: State, v: View, t: int, u: Unlinking, c: Choice)
    requires Unlinks(s, v, t, u) && u.RestoreLeft?
    ensures Inv(StepUnlink(s, t, u, c), FollowUnlink(s, v, t, u, c))
  {
    assert ThreadOK(s, v, t);
    LetGoLeft(s, v, t, u, StepUnlink(s, t, u, c));
  }

  /** Giving the left neighbour's word back. */
  lemma LetGoLeft(s: State, v: View, t: int, u: Unlinking, s': State)
    requires Unlinks(s, v, t, u) && u.RestoreLeft? && Has(v, u.l) && |s'.threads| == |s.threads|
    requires s' == Put(s, u.l, u.ll).(threads := s.threads[t := s'.threads[t]])
    requires var th := s'.threads[t];
             th == s.threads[t].(pc := Unlink(LoadTarget(u.e))) || th == Leave(s, t).threads[t]
    ensures Inv(s', Set(v, u.l, v.cells[u.l].(lockR := NOBODY)))
  {
    assert ThreadOK(s, v, t) && ElemOK(s.words[u.l], v, u.l);
    assert Owns(v.cells[u.l], t, s.threads[t], u.l);
    Regrip(s, v, s', Set(v, u.l, v.cells[u.l].(lockR := NOBODY)), t, u.l, s'.threads[t]);
  }

  lemma RelinkRightStep(s: State, v: View, t: int, u: Unlinking, c: Choice)
    requires Unlinks(s, v, t, u) && u.RelinkRight?
    ensures Inv(StepUnlink(s, t, u, c), FollowUnlink(s, v, t, u, c))
  {
    var RelinkRight(e, tl, rx) := u;
    assert ThreadOK(s, v, t);
    if c.Spurious? || s.words[tl.right] != rx {
      UnlinkQuiet(s, v, t, u, ReloadRight(e, tl));
    } else {
      LinkRight(s, v, t, u);
    }
  }

  /** The right neighbour gets its new left link and its word back. */
  lemma LinkRight(s: State, v: View, t: int, u: Unlinking)
    requires Unlinks(s, v, t, u) && u.RelinkRight? && Has(v, u.tl.right) && s.words[u.tl.right] == u.rx
    ensures Inv(Store(s, t, u.tl.right, Word(u.tl.left, u.rx.right), Unlink(Detach(u.e))),
                Set(v, u.tl.right, v.cells[u.tl.right].(lockL := NOBODY)))
  {
    var r := u.tl.right;
    assert ThreadOK(s, v, t) && ElemOK(s.words[r], v, r);
    assert Owns(v.cells[r], t, s.threads[t], r);
    var s' := Store(s, t, r, Word(u.tl.left, u.rx.right), Unlink(Detach(u.e)));
    Regrip(s, v, s', Set(v, r, v.cells[r].(lockL := NOBODY)), t, r, s'.threads[t]);
  }

  lemma ReloadStep(s: State, v: View, t: int, u: Unlinking, c: Choice)
    requires Unlinks(s, v, t, u) && (u.ReloadLeft? || u.ReloadRight?)
    ensures Inv(StepUnlink(s, t, u, c), v)
  {
    assert ThreadOK(s, v, t);
    if u.ReloadLeft? {
      UnlinkQuiet(s, v, t, u, RelinkLeft(u.e, u.tl, s.words[u.tl.left], u.rx));
    } else {
      UnlinkQuiet(s, v, t, u, RelinkRight(u.e, u.tl, s.words[u.tl.right]));
    }
  }

  /** Elements l, e and r of list o in a row, gripped by t. */
  ghost predicate Row(v: View, t: int, e: int, tl: Word, o: int) {
    && |v.cells| <= END && Gripped(v, t, e, tl) && 0 <= t < |v.first| == |v.last| && 0 <= o < |v.first|
    && v.cells[e].place == v.cells[tl.left].place == v.cells[tl.right].place == InList(o)
    && v.cells[tl.left].rank < v.cells[e].rank < v.cells[tl.right].rank
  }

  lemma BypassSelf(w: Word, v: View, t: int, e: int, tl: Word, o: int)
    requires Row(v, t, e, tl, o) && ElemOK(w, v, e)
    ensures ElemOK(w, Bypassed(v, t, e, tl), e)
  {}

  lemma BypassLeft(w: Word, v: View, t: int, e: int, tl: Word, o: int)
    requires Row(v, t, e, tl, o) && ElemOK(w, v, tl.left)
    ensures ElemOK(Word(v.cells[tl.left].prev, tl.right), Bypassed(v, t, e, tl), tl.left)
  {}

  lemma BypassRight(w: Word, v: View, t: int, e: int, tl: Word, o: int)
    requires Row(v, t, e, tl, o) && ElemOK(w, v, tl.right)
    ensures ElemOK(w, Bypassed(v, t, e, tl), tl.right)
  {}

  lemma BypassFar(w: Word, v: View, t: int, e: int, tl: Word, o: int, y: int)
    requires Row(v, t, e, tl, o) && Has(v, y) && ElemOK(w, v, y) && y != e && y != tl.left && y != tl.right
    ensures Undisturbed(v, Bypassed(v, t, e, tl), y)
  {}

  /** The target leaves the list when its left neighbour is linked past it. */
  lemma BypassElem(s: State, v: View, t: int, e: int, tl: Word, y: int)
    requires Inv(s, v) && Runs(s, t) && Gripped(v, t, e, tl) && In(s, y)
    ensures var w := if y == tl.left then Word(v.cells[y].prev, tl.right) else s.words[y];
            ElemOK(w, Bypassed(v, t, e, tl), y)
  {
    var o := GripRow(s, v, t, e, tl);
    assert ElemOK(s.words[y], v, y);
    if y == e {
      BypassSelf(s.words[y], v, t, e, tl, o);
    } else if y == tl.left {
      BypassLeft(s.words[y], v, t, e, tl, o);
    } else if y == tl.right {
      BypassRight(s.words[y], v, t, e, tl, o);
    } else {
      BypassFar(s.words[y], v, t, e, tl, o, y);
      StaysOK(s.words[y], v, Bypassed(v, t, e, tl), y);
    }
  }

  /** What t has locked on a list is not another thread's. */
  lemma GrippedNotMine(s: State, v: View, t: int, x: int, u: int)
    requires Inv(s, v) && Has(v, x) && v.cells[x].place.InList? && (v.cells[x].lockL == t || v.cells[x].lockR == t)
    requires v.cells[x].lockL in {t, NOBODY} && v.cells[x].lockR in {t, NOBODY}
    requires 0 <= t < |s.threads| && 0 <= u < |s.threads| && u != t
    ensures !Mine(v, u, x)
  {
    assert ElemOK(s.words[x], v, x) && OwnerOK(s, v, u);
  }

  lemma BypassLocks(v: View, t: int, e: int, tl: Word, u: int, x: int)
    requires Gripped(v, t, e, tl) && Has(v, x) && 0 <= u && u != t
    ensures SameLocks(v.cells[x], Bypassed(v, t, e, tl).cells[x], u)
    ensures x != e && x != tl.left && x != tl.right ==> Bypassed(v, t, e, tl).cells[x] == v.cells[x]
  {}

  lemma BypassSpares(s: State, v: View, t: int, e: int, tl: Word, s': State, u: int)
    requires Inv(s, v) && Runs(s, t) && Gripped(v, t, e, tl)
    requires |s'.words| == |s.words| && |s'.threads| == |s.threads|
    requires s' == Put(s, tl.left, s'.words[tl.left]).(threads := s.threads[t := s'.threads[t]])
    requires 0 <= u < |s.threads| && u != t
    ensures Sized(s', Bypassed(v, t, e, tl)) && Spares(s, v, s', Bypassed(v, t, e, tl), u)
  {
    var v' := Bypassed(v, t, e, tl);
    GrippedNotMine(s, v, t, e, u);
    GrippedNotMine(s, v, t, tl.left, u);
    GrippedNotMine(s, v, t, tl.right, u);
    forall x | Has(v, x)
      ensures SameLocks(v.cells[x], v'.cells[x], u)
      ensures Mine(v, u, x) ==> v'.cells[x] == v.cells[x] && s'.words[x] == s.words[x]
    {
      BypassLocks(v, t, e, tl, u, x);
    }
  }

  lemma BypassOwns(c: Cell, v: View, t: int, u: Unlinking, spare: int, y: int)
    requires u.RelinkLeft? && Gripped(v, t, u.e, u.tl) && Has(v, y) && u.e != u.tl.left && u.e != u.tl.right
    requires u.tl.left != u.tl.right && Owns(v.cells[y], t, Thread(Unlink(u), spare), y)
    requires c == Bypassed(v, t, u.e, u.tl).cells[y]
    ensures Owns(c, t, Thread(Unlink(RelinkRight(u.e, u.tl, u.rx)), spare), y)
  {}

  lemma BypassOwner(s: State, v: View, t: int, e: int, tl: Word, s': State, o: int)
    requires Sized(s, v) && Runs(s, t) && OwnerOK(s, v, t) && Row(v, t, e, tl, o) && s.threads[t].pc.Unlink?
    requires e != v.first[t] && e != v.last[t] && Shaped(s') && |s'.words| == |s.words| && |s'.threads| == |s.threads|
    requires s'.threads[t].pc.Unlink? && s'.freeHead == s.freeHead && s'.head == s.head && s'.tail == s.tail
    ensures OwnerOK(s', Bypassed(v, t, e, tl), t)
  {}

  lemma BypassAt(words: seq<Word>, v: View, t: int, u: Unlinking, spare: int, o: int)
    requires u.RelinkLeft? && Row(v, t, u.e, u.tl, o) && |words| == |v.cells| && t < |v.free| == |v.first|
    requires SpareOK(v, t, Thread(Unlink(u), spare))
    ensures var v', th := Bypassed(v, t, u.e, u.tl), Thread(Unlink(RelinkRight(u.e, u.tl, u.rx)), spare);
            At(words, v', t, th) && SpareOK(v', t, th)
  {}

  /** Elements e and its neighbours stand in a row of one list, and e is at neither end. */
  lemma GripRow(s: State, v: View, t: int, e: int, tl: Word) returns (o: int)
    requires Inv(s, v) && Runs(s, t) && Gripped(v, t, e, tl)
    ensures Row(v, t, e, tl, o) && e != v.first[o] && e != v.last[o] && v.cells[e].place == InList(o)
  {
    o := v.cells[e].place.owner;
    assert ElemOK(s.words[e], v, e);
  }

  lemma BypassThread(s: State, v: View, t: int, u: Unlinking, s': State)
    requires Unlinks(s, v, t, u) && u.RelinkLeft? && Gripped(v, t, u.e, u.tl)
    requires s' == Goto(Put(s, u.tl.left, Word(v.cells[u.tl.left].prev, u.tl.right)), t,
                        Unlink(RelinkRight(u.e, u.tl, u.rx)))
    ensures var v' := Bypassed(v, t, u.e, u.tl); OwnerOK(s', v', t) && ThreadOK(s', v', t)
  {
    var v' := Bypassed(v, t, u.e, u.tl);
    var o := GripRow(s, v, t, u.e, u.tl);
    assert ThreadOK(s, v, t) && OwnerOK(s, v, t);
    BypassAt(s'.words, v, t, u, s.threads[t].spare, o);
    BypassOwner(s, v, t, u.e, u.tl, s', o);
    forall y | Has(v', y) ensures Owns(v'.cells[y], t, s'.threads[t], y) {
      assert Owns(v.cells[y], t, s.threads[t], y);
      BypassOwns(v'.cells[y], v, t, u, s.threads[t].spare, y);
    }
  }

  lemma Bypass(s: State, v: View, t: int, u: Unlinking, s': State)
    requires Unlinks(s, v, t, u) && u.RelinkLeft? && Gripped(v, t, u.e, u.tl)
    requires s' == Goto(Put(s, u.tl.left, Word(v.cells[u.tl.left].prev, u.tl.right)), t,
                        Unlink(RelinkRight(u.e, u.tl, u.rx)))
    ensures Inv(s', Bypassed(v, t, u.e, u.tl))
  {
    var v' := Bypassed(v, t, u.e, u.tl);
    forall y | Has(v', y) ensures ElemOK(s'.words[y], v', y) {
      BypassElem(s, v, t, u.e, u.tl, y);
    }
    forall w | 0 <= w < |s.threads| && w != t ensures Spares(s, v, s', v', w) {
      BypassSpares(s, v, t, u.e, u.tl, s', w);
    }
    BypassThread(s, v, t, u, s');
    Settle(s, v, s', v', t);
  }

  lemma RelinkLeftStep(s: State, v: View, t: int, u: Unlinking, c: Choice)
    requires Unlinks(s, v, t, u) && u.RelinkLeft?
    ensures Inv(StepUnlink(s, t, u, c), FollowUnlink(s, v, t, u, c))
  {
    var RelinkLeft(e, tl, lx, rx) := u;
    assert ThreadOK(s, v, t);
    assert ElemOK(s.words[tl.left], v, tl.left) && ElemOK(s.words[tl.right], v, tl.right);
    if c.Spurious? || s.words[tl.left] != lx {
      UnlinkQuiet(s, v, t, u, ReloadLeft(e, tl, rx));
    } else {
      Bypass(s, v, t, u, StepUnlink(s, t, u, c));
    }
  }

  // ---- steps that only concern an element in hand ----

  lemma RewriteElem(words: seq<Word>, v: View, t: int, e: int, w: Word, y: int)
    requires |words| == |v.cells| && InHandOf(v, t, e) && Has(v, y) && ElemOK(words[y], v, y) && ElemOK(words[e], v, e)
    requires w.left == END && w.right != LOCK
    ensures ElemOK(words[e := w][y], Unlocked(v, e), y)
  {
    assert Linked(v, y) ==> Linked(Unlocked(v, e), y);
  }

  lemma RewriteSpares(s: State, v: View, s': State, t: int, e: int, th: Thread, u: int)
    requires Inv(s, v) && Runs(s, t) && InHandOf(v, t, e) && |s'.words| == |s.words|
    requires s' == Put(s, e, s'.words[e]).(threads := s.threads[t := th])
    requires 0 <= u < |s.threads| && u != t
    ensures Sized(s', Unlocked(v, e)) && Spares(s, v, s', Unlocked(v, e), u)
  {
    assert ElemOK(s.words[e], v, e) && OwnerOK(s, v, u);
    assert !Mine(v, u, e);
  }

  /** Thread t rewrites the word of an element it holds. */
  lemma Rewrite(s: State, v: View, s': State, v': View, t: int, e: int, th: Thread)
    requires Inv(s, v) && Runs(s, t) && InHandOf(v, t, e) && |s'.words| == |s.words|
    requires s' == Put(s, e, s'.words[e]).(threads := s.threads[t := th])
    requires v' == Unlocked(v, e)
    requires s'.words[e].left == END && s'.words[e].right != LOCK
    requires OwnerOK(s', v', t) && At(s'.words, v', t, th) && SpareOK(v', t, th)
    requires FullOf(th.pc) == LeftOf(th.pc) == RightOf(th.pc) == NOBODY
    requires FullOf(s.threads[t].pc) in {e, NOBODY}
    requires LeftOf(s.threads[t].pc) == RightOf(s.threads[t].pc) == NOBODY
    requires HandOf(s.threads[t].pc) == HandOf(th.pc) && s.threads[t].spare == th.spare
    ensures Inv(s', v')
  {
    assert ThreadOK(s, v, t);
    forall y | Has(v', y) ensures ElemOK(s'.words[y], v', y) {
      assert ElemOK(s.words[y], v, y) && ElemOK(s.words[e], v, e);
      RewriteElem(s.words, v, t, e, s'.words[e], y);
    }
    forall y | Has(v', y) ensures Owns(v'.cells[y], t, th, y) {
      assert Owns(v.cells[y], t, s.threads[t], y);
    }
    forall u | 0 <= u < |s.threads| && u != t ensures Spares(s, v, s', v', u) {
      RewriteSpares(s, v, s', t, e, th, u);
    }
    Settle(s, v, s', v', t);
  }

  lemma DetachStep(s: State, v: View, t: int, u: Unlinking, c: Choice)
    requires Unlinks(s, v, t, u) && u.Detach?
    ensures Inv(StepUnlink(s, t, u, c), FollowUnlink(s, v, t, u, c))
  {
    assert ThreadOK(s, v, t) && OwnerOK(s, v, t);
    var s' := StepUnlink(s, t, u, c);
    Rewrite(s, v, s', Unlocked(v, u.e), t, u.e, s'.threads[t]);
  }

  lemma UnlinkStep(s: State, v: View, t: int, u: Unlinking, c: Choice)
    requires Unlinks(s, v, t, u)
    ensures Inv(StepUnlink(s, t, u, c), FollowUnlink(s, v, t, u, c))
  {
    match u
    case LoadTarget(_) => LoadTargetStep(s, v, t, u, c);
    case LockTarget(_, _) => LockTargetStep(s, v, t, u, c);
    case LoadLeft(_, _) => LoadNeighbourStep(s, v, t, u, c);
    case LoadRight(_, _, _) => LoadNeighbourStep(s, v, t, u, c);
    case LockLeft(_, _, _, _) => LockLeftStep(s, v, t, u, c);
    case RestoreTarget(_, _) => RestoreStep(s, v, t, u, c);
    case LockRight(_, _, _, _) => LockRightStep(s, v, t, u, c);
    case RestoreBoth(_, _, _) => RestoreStep(s, v, t, u, c);
    case RestoreLeft(_, _, _, _) => RestoreLeftStep(s, v, t, u, c);
    case RelinkLeft(_, _, _, _) => RelinkLeftStep(s, v, t, u, c);
    case ReloadLeft(_, _, _) => ReloadStep(s, v, t, u, c);
    case RelinkRight(_, _, _) => RelinkRightStep(s, v, t, u, c);
    case ReloadRight(_, _) => ReloadStep(s, v, t, u, c);
    case Detach(_) => DetachStep(s, v, t, u, c);
  }
}
