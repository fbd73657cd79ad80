/**
 The list operations of one thread while no other is at work: step by step on the link words they
 do what the link updates of `LinkChains` do at once.
 */
module LoneLinks {
  import opened LinkWords
  import C = LinkChains
  import opened LruRows

  /** Where the thread waits for the index, and where it has nothing to do. */
  predicate Paused(pc: PC) {
    match pc
    case Pool(p) => p.Idle? || p.Probe? || p.Wild?
    case Trim(m) => m.TailDetach?
    case _ => false
  }

  /** Thread t goes on alone: k steps, or fewer if it pauses before. */
  ghost function On(s: State, t: int, k: nat): (r: State)
    requires Runs(s, t)
    ensures SameShape(s, r)
    decreases k
  {
    if k == 0 || Paused(s.threads[t].pc) then s else On(Step(s, t, Go), t, k - 1)
  }

  lemma {:induction false} OnAgain(s: State, t: int, j: nat, k: nat)
    requires Runs(s, t)
    ensures On(s, t, j + k) == On(On(s, t, j), t, k)
    decreases j
  {
    if j > 0 && !Paused(s.threads[t].pc) { OnAgain(Step(s, t, Go), t, j - 1, k); }
  }

  function EndsAt(s: State, t: int): C.Ends
    requires Runs(s, t)
  {
    C.Ends(s.head[t], s.tail[t], s.freeHead[t])
  }

  /** Nothing of another thread changes. */
  ghost predicate Alone(s: State, r: State, t: int)
    requires Runs(s, t)
  {
    && SameShape(s, r)
    && forall u {:trigger r.threads[u]} {:trigger r.head[u]} {:trigger r.tail[u]} {:trigger r.freeHead[u]} ::
         0 <= u < |s.threads| && u != t ==>
         r.threads[u] == s.threads[u] && r.head[u] == s.head[u] && r.tail[u] == s.tail[u]
         && r.freeHead[u] == s.freeHead[u]
  }

  lemma AloneAgain(s: State, a: State, r: State, t: int)
    requires Runs(s, t) && Alone(s, a, t) && Alone(a, r, t)
    ensures Alone(s, r, t)
  {
    forall u | 0 <= u < |s.threads| && u != t
      ensures r.threads[u] == s.threads[u] && r.head[u] == s.head[u] && r.tail[u] == s.tail[u]
              && r.freeHead[u] == s.freeHead[u]
    {
      assert a.threads[u] == s.threads[u] && r.threads[u] == a.threads[u];
    }
  }

  /** The thread has come to th with these words and ends, and disturbed nobody. */
  ghost predicate Comes(s: State, r: State, t: int, words: seq<Word>, ends: C.Ends, th: Thread)
    requires Runs(s, t)
  {
    && Alone(s, r, t) && r.words == words && r.threads[t] == th
    && r.head[t] == ends.head && r.tail[t] == ends.tail && r.freeHead[t] == ends.free
  }

  /** One step. */
  lemma Steps(s: State, t: int, r: State, words: seq<Word>, ends: C.Ends, th: Thread)
    requires Runs(s, t) && !Paused(s.threads[t].pc) && r == Step(s, t, Go) && Comes(s, r, t, words, ends, th)
    ensures Comes(s, On(s, t, 1), t, words, ends, th)
  {
    assert On(s, t, 1) == On(r, t, 0);
  }

  /** Going on from where the thread has come to. */
  lemma Then(s: State, t: int, j: nat, a: State, k: nat, words: seq<Word>, ends: C.Ends, th: Thread) returns (r: State)
    requires Runs(s, t) && a == On(s, t, j) && Alone(s, a, t) && Comes(a, On(a, t, k), t, words, ends, th)
    ensures r == On(s, t, j + k) && Comes(s, r, t, words, ends, th)
  {
    r := On(a, t, k);
    OnAgain(s, t, j, k);
    AloneAgain(s, a, r, t);
  }

  // ---- unlinkElement, step by step ----

  /** What the thread does when unlinkElement has given up or linkHead is done. */
  function Done(spare: int): Thread { Thread(Pool(if spare == END then Idle else Push(spare)), END) }

  ghost predicate InUnlink(s: State, t: int, u: Unlinking, spare: int) {
    Runs(s, t) && s.threads[t] == Thread(Unlink(u), spare)
  }

  /** The thread comes to u. */
  ghost predicate ToUnlink(s: State, t: int, words: seq<Word>, u: Unlinking, spare: int)
    requires Runs(s, t)
  {
    Comes(s, On(s, t, 1), t, words, EndsAt(s, t), Thread(Unlink(u), spare))
  }

  /** The element is at an end of its list. */
  lemma AtEnd(s: State, t: int, e: int, spare: int)
    requires InUnlink(s, t, LoadTarget(e), spare) && In(s, e) && Marked(s.words[e], END)
    ensures Comes(s, On(s, t, 1), t, s.words, EndsAt(s, t), Done(spare))
  {
    Steps(s, t, Leave(s, t), s.words, EndsAt(s, t), Done(spare));
  }

  lemma TargetLoaded(s: State, t: int, e: int, spare: int)
    requires InUnlink(s, t, LoadTarget(e), spare) && In(s, e) && !Marked(s.words[e], END) && !Marked(s.words[e], LOCK)
    ensures ToUnlink(s, t, s.words, LockTarget(e, s.words[e]), spare)
  {
    Steps(s, t, Goto(s, t, Unlink(LockTarget(e, s.words[e]))),
          s.words, EndsAt(s, t), Thread(Unlink(LockTarget(e, s.words[e])), spare));
  }

  lemma TargetLocked(s: State, t: int, e: int, spare: int)
    requires In(s, e) && InUnlink(s, t, LockTarget(e, s.words[e]), spare)
    ensures ToUnlink(s, t, s.words[e := Word(LOCK, LOCK)], LoadLeft(e, s.words[e]), spare)
  {
    Steps(s, t, Store(s, t, e, Word(LOCK, LOCK), Unlink(LoadLeft(e, s.words[e]))),
          s.words[e := Word(LOCK, LOCK)], EndsAt(s, t), Thread(Unlink(LoadLeft(e, s.words[e])), spare));
  }

  lemma LeftLoaded(s: State, t: int, e: int, tl: Word, spare: int)
    requires InUnlink(s, t, LoadLeft(e, tl), spare) && In(s, tl.left)
    ensures ToUnlink(s, t, s.words, LoadRight(e, tl, s.words[tl.left]), spare)
  {
    Steps(s, t, Goto(s, t, Unlink(LoadRight(e, tl, s.words[tl.left]))),
          s.words, EndsAt(s, t), Thread(Unlink(LoadRight(e, tl, s.words[tl.left])), spare));
  }

  lemma RightLoaded(s: State, t: int, e: int, tl: Word, ll: Word, spare: int)
    requires InUnlink(s, t, LoadRight(e, tl, ll), spare) && In(s, tl.right)
    ensures ToUnlink(s, t, s.words, LockLeft(e, tl, ll, s.words[tl.right]), spare)
  {
    Steps(s, t, Goto(s, t, Unlink(LockLeft(e, tl, ll, s.words[tl.right]))),
          s.words, EndsAt(s, t), Thread(Unlink(LockLeft(e, tl, ll, s.words[tl.right])), spare));
  }

  /** The left neighbour is first: unlock and give up. */
  lemma NextToFirst(s: State, t: int, e: int, tl: Word, ll: Word, rl: Word, spare: int)
    requires InUnlink(s, t, LockLeft(e, tl, ll, rl), spare) && In(s, e) && In(s, tl.left) && ll.left == END
    ensures Comes(s, On(s, t, 1), t, s.words[e := tl], EndsAt(s, t), Done(spare))
  {
    Steps(s, t, Leave(Put(s, e, tl), t), s.words[e := tl], EndsAt(s, t), Done(spare));
  }

  lemma LeftLocked(s: State, t: int, e: int, tl: Word, ll: Word, rl: Word, spare: int)
    requires InUnlink(s, t, LockLeft(e, tl, ll, rl), spare) && In(s, e) && In(s, tl.left)
    requires ll.left != END && ll.left != LOCK && ll.right == e && s.words[tl.left] == ll
    ensures ToUnlink(s, t, s.words[tl.left := Word(ll.left, LOCK)], LockRight(e, tl, ll, rl), spare)
  {
    Steps(s, t, Store(s, t, tl.left, Word(ll.left, LOCK), Unlink(LockRight(e, tl, ll, rl))),
          s.words[tl.left := Word(ll.left, LOCK)], EndsAt(s, t), Thread(Unlink(LockRight(e, tl, ll, rl)), spare));
  }

  /** The right neighbour is last: unlock both and give up. */
  lemma TargetRestored(s: State, t: int, e: int, tl: Word, ll: Word, rl: Word, spare: int)
    requires InUnlink(s, t, LockRight(e, tl, ll, rl), spare) && In(s, e) && In(s, tl.right) && rl.right == END
    ensures ToUnlink(s, t, s.words[e := tl], RestoreLeft(e, tl.left, ll, false), spare)
  {
    Steps(s, t, Store(s, t, e, tl, Unlink(RestoreLeft(e, tl.left, ll, false))),
          s.words[e := tl], EndsAt(s, t), Thread(Unlink(RestoreLeft(e, tl.left, ll, false)), spare));
  }

  lemma LeftRestored(s: State, t: int, e: int, l: int, ll: Word, spare: int)
    requires InUnlink(s, t, RestoreLeft(e, l, ll, false), spare) && In(s, l)
    ensures Comes(s, On(s, t, 1), t, s.words[l := ll], EndsAt(s, t), Done(spare))
  {
    Steps(s, t, Leave(Put(s, l, ll), t), s.words[l := ll], EndsAt(s, t), Done(spare));
  }

  lemma RightLocked(s: State, t: int, e: int, tl: Word, ll: Word, rl: Word, spare: int)
    requires InUnlink(s, t, LockRight(e, tl, ll, rl), spare) && In(s, e) && In(s, tl.right)
    requires rl.right != END && rl.right != LOCK && rl.left == e && s.words[tl.right] == rl
    ensures ToUnlink(s, t, s.words[tl.right := Word(LOCK, rl.right)],
                     RelinkLeft(e, tl, Word(ll.left, LOCK), Word(LOCK, rl.right)), spare)
  {
    Steps(s, t, Store(s, t, tl.right, Word(LOCK, rl.right),
                      Unlink(RelinkLeft(e, tl, Word(ll.left, LOCK), Word(LOCK, rl.right)))),
          s.words[tl.right := Word(LOCK, rl.right)], EndsAt(s, t),
          Thread(Unlink(RelinkLeft(e, tl, Word(ll.left, LOCK), Word(LOCK, rl.right))), spare));
  }

  lemma LeftRelinked(s: State, t: int, e: int, tl: Word, lx: Word, rx: Word, spare: int)
    requires InUnlink(s, t, RelinkLeft(e, tl, lx, rx), spare) && In(s, tl.left) && s.words[tl.left] == lx
    ensures ToUnlink(s, t, s.words[tl.left := Word(lx.left, tl.right)], RelinkRight(e, tl, rx), spare)
  {
    Steps(s, t, Store(s, t, tl.left, Word(lx.left, tl.right), Unlink(RelinkRight(e, tl, rx))),
          s.words[tl.left := Word(lx.left, tl.right)], EndsAt(s, t), Thread(Unlink(RelinkRight(e, tl, rx)), spare));
  }

  lemma RightRelinked(s: State, t: int, e: int, tl: Word, rx: Word, spare: int)
    requires InUnlink(s, t, RelinkRight(e, tl, rx), spare) && In(s, tl.right) && s.words[tl.right] == rx
    ensures ToUnlink(s, t, s.words[tl.right := Word(tl.left, rx.right)], Detach(e), spare)
  {
    Steps(s, t, Store(s, t, tl.right, Word(tl.left, rx.right), Unlink(Detach(e))),
          s.words[tl.right := Word(tl.left, rx.right)], EndsAt(s, t), Thread(Unlink(Detach(e)), spare));
  }

  lemma Detached(s: State, t: int, e: int, spare: int)
    requires InUnlink(s, t, Detach(e), spare) && In(s, e)
    ensures Comes(s, On(s, t, 1), t, s.words[e := Word(END, END)], EndsAt(s, t),
                  Thread(Link(e, false, LinkStore), spare))
  {
    Steps(s, t, Store(s, t, e, Word(END, END), Link(e, false, LinkStore)),
          s.words[e := Word(END, END)], EndsAt(s, t), Thread(Link(e, false, LinkStore), spare));
  }

  // ---- unlinkElement ----

  /** Locking the element and loading both neighbours. */
  lemma LocksTarget(s: State, t: int, e: int, spare: int, l: int, m: int) returns (r: State)
    requires InUnlink(s, t, LoadTarget(e), spare) && In(s, e) && s.words[e] == Word(l, m)
    requires In(s, l) && In(s, m) && e != l && e != m && |s.words| <= END
    ensures r == On(s, t, 4)
    ensures Comes(s, r, t, s.words[e := Word(LOCK, LOCK)], EndsAt(s, t),
                  Thread(Unlink(LockLeft(e, Word(l, m), s.words[l], s.words[m])), spare))
  {
    var w, ends, tl := s.words[e := Word(LOCK, LOCK)], EndsAt(s, t), Word(l, m);
    TargetLoaded(s, t, e, spare);
    var a := On(s, t, 1);
    TargetLocked(a, t, e, spare);
    var b := Then(s, t, 1, a, 1, w, ends, Thread(Unlink(LoadLeft(e, tl)), spare));
    LeftLoaded(b, t, e, tl, spare);
    var c := Then(s, t, 2, b, 1, w, ends, Thread(Unlink(LoadRight(e, tl, s.words[l])), spare));
    RightLoaded(c, t, e, tl, s.words[l], spare);
    r := Then(s, t, 3, c, 1, w, ends, Thread(Unlink(LockLeft(e, tl, s.words[l], s.words[m])), spare));
  }

  lemma NextToLast(s: State, t: int, e: int, tl: Word, ll: Word, rl: Word, spare: int) returns (r: State)
    requires InUnlink(s, t, LockRight(e, tl, ll, rl), spare) && In(s, e) && In(s, tl.left) && In(s, tl.right)
    requires rl.right == END
    ensures r == On(s, t, 2) && Comes(s, r, t, s.words[e := tl][tl.left := ll], EndsAt(s, t), Done(spare))
  {
    TargetRestored(s, t, e, tl, ll, rl, spare);
    var a := On(s, t, 1);
    LeftRestored(a, t, e, tl.left, ll, spare);
    r := Then(s, t, 1, a, 1, s.words[e := tl][tl.left := ll], EndsAt(s, t), Done(spare));
  }

  /** All three are locked: relink the neighbours and free the element. */
  lemma Relinks(s: State, t: int, e: int, tl: Word, ll: Word, rl: Word, spare: int) returns (r: State)
    requires InUnlink(s, t, LockRight(e, tl, ll, rl), spare) && In(s, e) && In(s, tl.left) && In(s, tl.right)
    requires rl.right != END && rl.right != LOCK && rl.left == e && s.words[tl.right] == rl
    requires s.words[tl.left] == Word(ll.left, LOCK) && tl.left != tl.right && e != tl.left && e != tl.right
    ensures r == On(s, t, 4)
    ensures Comes(s, r, t,
                  s.words[tl.right := Word(LOCK, rl.right)][tl.left := Word(ll.left, tl.right)]
                         [tl.right := Word(tl.left, rl.right)][e := Word(END, END)],
                  EndsAt(s, t), Thread(Link(e, false, LinkStore), spare))
  {
    var lx, rx, ends := Word(ll.left, LOCK), Word(LOCK, rl.right), EndsAt(s, t);
    RightLocked(s, t, e, tl, ll, rl, spare);
    var a := On(s, t, 1);
    LeftRelinked(a, t, e, tl, lx, rx, spare);
    var w := a.words[tl.left := Word(ll.left, tl.right)];
    var b := Then(s, t, 1, a, 1, w, ends, Thread(Unlink(RelinkRight(e, tl, rx)), spare));
    RightRelinked(b, t, e, tl, rx, spare);
    w := w[tl.right := Word(tl.left, rl.right)];
    var c := Then(s, t, 2, b, 1, w, ends, Thread(Unlink(Detach(e)), spare));
    Detached(c, t, e, spare);
    r := Then(s, t, 3, c, 1, w[e := Word(END, END)], ends, Thread(Link(e, false, LinkStore), spare));
  }

  // ---- linkHead ----

  /** Where linkHead leads: to the question whether the free list is empty, or out. */
  function Linked(isNew: bool, spare: int): Thread {
    if isNew then Thread(Pool(CheckFree), spare) else Done(spare)
  }

  ghost predicate InLink(s: State, t: int, x: int, isNew: bool, k: Linking, spare: int) {
    Runs(s, t) && s.threads[t] == Thread(Link(x, isNew, k), spare)
  }

  lemma Stored(s: State, t: int, x: int, isNew: bool, spare: int)
    requires InLink(s, t, x, isNew, LinkStore, spare) && In(s, x)
    ensures var h := s.head[t];
            Comes(s, On(s, t, 1), t, s.words[x := Word(END, h)], EndsAt(s, t),
                  Thread(Link(x, isNew, if h == END then LinkTail else LinkLoad(h)), spare))
  {
    var h := s.head[t];
    Steps(s, t, Store(s, t, x, Word(END, h), Link(x, isNew, if h == END then LinkTail else LinkLoad(h))),
          s.words[x := Word(END, h)], EndsAt(s, t),
          Thread(Link(x, isNew, if h == END then LinkTail else LinkLoad(h)), spare));
  }

  lemma TailStored(s: State, t: int, x: int, isNew: bool, spare: int)
    requires InLink(s, t, x, isNew, LinkTail, spare)
    ensures Comes(s, On(s, t, 1), t, s.words, EndsAt(s, t).(tail := x), Thread(Link(x, isNew, LinkHead), spare))
  {
    Steps(s, t, Goto(s.(tail := s.tail[t := x]), t, Link(x, isNew, LinkHead)),
          s.words, EndsAt(s, t).(tail := x), Thread(Link(x, isNew, LinkHead), spare));
  }

  lemma OldLoaded(s: State, t: int, x: int, isNew: bool, h: int, spare: int)
    requires InLink(s, t, x, isNew, LinkLoad(h), spare) && In(s, h)
    ensures Comes(s, On(s, t, 1), t, s.words, EndsAt(s, t), Thread(Link(x, isNew, LinkOld(h, s.words[h])), spare))
  {
    Steps(s, t, Goto(s, t, Link(x, isNew, LinkOld(h, s.words[h]))),
          s.words, EndsAt(s, t), Thread(Link(x, isNew, LinkOld(h, s.words[h])), spare));
  }

  lemma OldStored(s: State, t: int, x: int, isNew: bool, h: int, w: Word, spare: int)
    requires InLink(s, t, x, isNew, LinkOld(h, w), spare) && In(s, h)
    ensures Comes(s, On(s, t, 1), t, s.words[h := Word(x, w.right)], EndsAt(s, t),
                  Thread(Link(x, isNew, LinkHead), spare))
  {
    Steps(s, t, Store(s, t, h, Word(x, w.right), Link(x, isNew, LinkHead)),
          s.words[h := Word(x, w.right)], EndsAt(s, t), Thread(Link(x, isNew, LinkHead), spare));
  }

  function HeadSet(s: State, t: int, x: int, isNew: bool): State
    requires Runs(s, t)
  {
    var s' := s.(head := s.head[t := x]);
    if isNew then Goto(s', t, Pool(CheckFree)) else Leave(s', t)
  }

  lemma HeadStored(s: State, t: int, x: int, isNew: bool, spare: int)
    requires InLink(s, t, x, isNew, LinkHead, spare)
    ensures Comes(s, On(s, t, 1), t, s.words, EndsAt(s, t).(head := x), Linked(isNew, spare))
  {
    Steps(s, t, HeadSet(s, t, x, isNew), s.words, EndsAt(s, t).(head := x), Linked(isNew, spare));
  }

  lemma HeadsEmpty(s: State, t: int, x: int, isNew: bool, spare: int) returns (r: State)
    requires InLink(s, t, x, isNew, LinkStore, spare) && In(s, x) && s.head[t] == END
    ensures r == On(s, t, 3)
    ensures Comes(s, r, t, s.words[x := Word(END, END)], C.Ends(x, x, s.freeHead[t]), Linked(isNew, spare))
  {
    var w, free := s.words[x := Word(END, END)], s.freeHead[t];
    Stored(s, t, x, isNew, spare);
    var a := On(s, t, 1);
    TailStored(a, t, x, isNew, spare);
    var b := Then(s, t, 1, a, 1, w, C.Ends(END, x, free), Thread(Link(x, isNew, LinkHead), spare));
    HeadStored(b, t, x, isNew, spare);
    r := Then(s, t, 2, b, 1, w, C.Ends(x, x, free), Linked(isNew, spare));
  }

  lemma HeadsOld(s: State, t: int, x: int, isNew: bool, spare: int, h: int) returns (r: State)
    requires InLink(s, t, x, isNew, LinkStore, spare) && In(s, x) && s.head[t] == h != END && In(s, h) && h != x
    ensures r == On(s, t, 4)
    ensures Comes(s, r, t, s.words[x := Word(END, h)][h := s.words[h].(left := x)], EndsAt(s, t).(head := x),
                  Linked(isNew, spare))
  {
    var w, ends := s.words[x := Word(END, h)], EndsAt(s, t);
    Stored(s, t, x, isNew, spare);
    var a := On(s, t, 1);
    OldLoaded(a, t, x, isNew, h, spare);
    var b := Then(s, t, 1, a, 1, w, ends, Thread(Link(x, isNew, LinkOld(h, s.words[h])), spare));
    OldStored(b, t, x, isNew, h, s.words[h], spare);
    w := w[h := s.words[h].(left := x)];
    var c := Then(s, t, 2, b, 1, w, ends, Thread(Link(x, isNew, LinkHead), spare));
    HeadStored(c, t, x, isNew, spare);
    r := Then(s, t, 3, c, 1, w, ends.(head := x), Linked(isNew, spare));
  }

  /** linkHead as one update. */
  lemma Heads(s: State, t: int, x: int, isNew: bool, spare: int) returns (k: nat, r: State)
    requires InLink(s, t, x, isNew, LinkStore, spare) && In(s, x)
    requires s.head[t] == END || (In(s, s.head[t]) && s.head[t] != x)
    ensures r == On(s, t, k)
    ensures var h := s.head[t];
            Comes(s, r, t, C.Headed(s.words, x, h), C.Ends(x, if h == END then x else s.tail[t], s.freeHead[t]),
                  Linked(isNew, spare))
  {
    if s.head[t] == END {
      k := 3;
      r := HeadsEmpty(s, t, x, isNew, spare);
    } else {
      k := 4;
      r := HeadsOld(s, t, x, isNew, spare, s.head[t]);
    }
  }

  // ---- unlinkTail, up to where the element leaves the index ----

  ghost predicate InTrim(s: State, t: int, m: Trimming, spare: int) {
    Runs(s, t) && s.threads[t] == Thread(Trim(m), spare)
  }

  ghost predicate ToTrim(s: State, t: int, words: seq<Word>, ends: C.Ends, m: Trimming, spare: int)
    requires Runs(s, t)
  {
    Comes(s, On(s, t, 1), t, words, ends, Thread(Trim(m), spare))
  }

  lemma FreeFound(s: State, t: int, spare: int)
    requires Runs(s, t) && s.threads[t] == Thread(Pool(CheckFree), spare) && s.freeHead[t] != END
    ensures Comes(s, On(s, t, 1), t, s.words, EndsAt(s, t), Thread(Pool(Idle), spare))
  {
    Steps(s, t, Goto(s, t, Pool(Idle)), s.words, EndsAt(s, t), Thread(Pool(Idle), spare));
  }

  lemma NoneFree(s: State, t: int, spare: int)
    requires Runs(s, t) && s.threads[t] == Thread(Pool(CheckFree), spare) && s.freeHead[t] == END
    ensures ToTrim(s, t, s.words, EndsAt(s, t), TailRead, spare)
  {
    Steps(s, t, Goto(s, t, Trim(TailRead)), s.words, EndsAt(s, t), Thread(Trim(TailRead), spare));
  }

  lemma TailSeen(s: State, t: int, spare: int)
    requires InTrim(s, t, TailRead, spare)
    ensures ToTrim(s, t, s.words, EndsAt(s, t), TailLoad(s.tail[t]), spare)
  {
    Steps(s, t, Goto(s, t, Trim(TailLoad(s.tail[t]))),
          s.words, EndsAt(s, t), Thread(Trim(TailLoad(s.tail[t])), spare));
  }

  lemma TailLoaded(s: State, t: int, x: int, spare: int)
    requires InTrim(s, t, TailLoad(x), spare) && In(s, x) && s.words[x].left != LOCK && s.words[x].right == END
    ensures var p := s.words[x].left;
            ToTrim(s, t, s.words, EndsAt(s, t), if p != END then TailLeft(x, p) else TailEmpty(x), spare)
  {
    var p := s.words[x].left;
    Steps(s, t, Goto(s, t, Trim(if p != END then TailLeft(x, p) else TailEmpty(x))),
          s.words, EndsAt(s, t), Thread(Trim(if p != END then TailLeft(x, p) else TailEmpty(x)), spare));
  }

  lemma BeforeLoaded(s: State, t: int, x: int, p: int, spare: int)
    requires InTrim(s, t, TailLeft(x, p), spare) && In(s, p) && s.words[p].left != LOCK && s.words[p].right == x
    ensures ToTrim(s, t, s.words, EndsAt(s, t), TailCas(x, p, s.words[p]), spare)
  {
    Steps(s, t, Goto(s, t, Trim(TailCas(x, p, s.words[p]))),
          s.words, EndsAt(s, t), Thread(Trim(TailCas(x, p, s.words[p])), spare));
  }

  lemma BeforeCut(s: State, t: int, x: int, p: int, spare: int)
    requires In(s, p) && InTrim(s, t, TailCas(x, p, s.words[p]), spare)
    requires s.words[p].left != LOCK && s.words[p].right == x
    ensures ToTrim(s, t, s.words[p := s.words[p].(right := END)], EndsAt(s, t), TailStore(x, p), spare)
  {
    Steps(s, t, Store(s, t, p, s.words[p].(right := END), Trim(TailStore(x, p))),
          s.words[p := s.words[p].(right := END)], EndsAt(s, t), Thread(Trim(TailStore(x, p)), spare));
  }

  lemma TailMoved(s: State, t: int, x: int, p: int, spare: int)
    requires InTrim(s, t, TailStore(x, p), spare)
    ensures ToTrim(s, t, s.words, EndsAt(s, t).(tail := p), TailDetach(x), spare)
  {
    Steps(s, t, Goto(s.(tail := s.tail[t := p]), t, Trim(TailDetach(x))),
          s.words, EndsAt(s, t).(tail := p), Thread(Trim(TailDetach(x)), spare));
  }

  lemma TailCleared(s: State, t: int, x: int, spare: int)
    requires InTrim(s, t, TailEmpty(x), spare)
    ensures ToTrim(s, t, s.words, EndsAt(s, t).(tail := END), HeadEmpty(x), spare)
  {
    Steps(s, t, Goto(s.(tail := s.tail[t := END]), t, Trim(HeadEmpty(x))),
          s.words, EndsAt(s, t).(tail := END), Thread(Trim(HeadEmpty(x)), spare));
  }

  lemma HeadCleared(s: State, t: int, x: int, spare: int)
    requires InTrim(s, t, HeadEmpty(x), spare)
    ensures ToTrim(s, t, s.words, EndsAt(s, t).(head := END), TailDetach(x), spare)
  {
    Steps(s, t, Goto(s.(head := s.head[t := END]), t, Trim(TailDetach(x))),
          s.words, EndsAt(s, t).(head := END), Thread(Trim(TailDetach(x)), spare));
  }

  /** Up to the load of the tail's word. */
  lemma TailFound(s: State, t: int, spare: int, x: int) returns (r: State)
    requires Runs(s, t) && s.threads[t] == Thread(Pool(CheckFree), spare) && s.freeHead[t] == END && s.tail[t] == x
    requires In(s, x) && s.words[x].left != LOCK && s.words[x].right == END
    ensures r == On(s, t, 3)
    ensures var p := s.words[x].left;
            Comes(s, r, t, s.words, EndsAt(s, t),
                  Thread(Trim(if p != END then TailLeft(x, p) else TailEmpty(x)), spare))
  {
    var p, ends := s.words[x].left, EndsAt(s, t);
    NoneFree(s, t, spare);
    var a := On(s, t, 1);
    TailSeen(a, t, spare);
    var b := Then(s, t, 1, a, 1, s.words, ends, Thread(Trim(TailLoad(x)), spare));
    TailLoaded(b, t, x, spare);
    r := Then(s, t, 2, b, 1, s.words, ends, Thread(Trim(if p != END then TailLeft(x, p) else TailEmpty(x)), spare));
  }

  lemma CutsInner(s: State, t: int, spare: int, x: int, p: int) returns (r: State)
    requires InTrim(s, t, TailLeft(x, p), spare) && In(s, p) && s.words[p].left != LOCK && s.words[p].right == x
    ensures r == On(s, t, 3)
    ensures Comes(s, r, t, s.words[p := s.words[p].(right := END)], EndsAt(s, t).(tail := p),
                  Thread(Trim(TailDetach(x)), spare))
  {
    var w, ends := s.words[p := s.words[p].(right := END)], EndsAt(s, t);
    BeforeLoaded(s, t, x, p, spare);
    var a := On(s, t, 1);
    BeforeCut(a, t, x, p, spare);
    var b := Then(s, t, 1, a, 1, w, ends, Thread(Trim(TailStore(x, p)), spare));
    TailMoved(b, t, x, p, spare);
    r := Then(s, t, 2, b, 1, w, ends.(tail := p), Thread(Trim(TailDetach(x)), spare));
  }

  lemma CutsOnly(s: State, t: int, spare: int, x: int) returns (r: State)
    requires InTrim(s, t, TailEmpty(x), spare)
    ensures r == On(s, t, 2)
    ensures Comes(s, r, t, s.words, C.Ends(END, END, s.freeHead[t]), Thread(Trim(TailDetach(x)), spare))
  {
    TailCleared(s, t, x, spare);
    var a := On(s, t, 1);
    HeadCleared(a, t, x, spare);
    r := Then(s, t, 1, a, 1, s.words, C.Ends(END, END, s.freeHead[t]), Thread(Trim(TailDetach(x)), spare));
  }

  /** The words without the last store of unlinkTail, which detaches x. */
  function Cutting(words: seq<Word>, x: int): (r: seq<Word>)
    requires 0 <= x < |words| && (words[x].left == END || 0 <= words[x].left < |words|)
    ensures |r| == |words| && (words[x].left != x ==> r[x := Word(END, END)] == C.Trimmed(words, x))
  {
    var l := words[x].left;
    if l == END then words else words[l := words[l].(right := END)]
  }

  lemma Cuts(s: State, t: int, spare: int, x: int) returns (k: nat, r: State)
    requires Runs(s, t) && s.threads[t] == Thread(Pool(CheckFree), spare) && s.freeHead[t] == END && s.tail[t] == x
    requires |s.words| <= END && In(s, x) && s.words[x].right == END
    requires var p := s.words[x].left; p == END || (In(s, p) && s.words[p].left != LOCK && s.words[p].right == x)
    ensures r == On(s, t, k)
    ensures Comes(s, r, t, Cutting(s.words, x), C.CutEnds(EndsAt(s, t), s.words[x].left),
                  Thread(Trim(TailDetach(x)), spare))
  {
    var p := s.words[x].left;
    var a := TailFound(s, t, spare, x);
    if p == END {
      var b := CutsOnly(a, t, spare, x);
      k := 5;
      r := Then(s, t, 3, a, 2, s.words, C.Ends(END, END, END), Thread(Trim(TailDetach(x)), spare));
    } else {
      var b := CutsInner(a, t, spare, x, p);
      k := 6;
      r := Then(s, t, 3, a, 3, s.words[p := s.words[p].(right := END)], EndsAt(s, t).(tail := p),
                Thread(Trim(TailDetach(x)), spare));
    }
  }

  // ---- free lists ----

  lemma FreeRead(s: State, t: int, e: int)
    requires Runs(s, t) && s.threads[t] == Thread(Pool(Pop(e)), END) && In(s, e)
    ensures Comes(s, On(s, t, 1), t, s.words, EndsAt(s, t), Thread(Pool(PopStore(e, s.words[e].right)), END))
  {
    Steps(s, t, Goto(s, t, Pool(PopStore(e, s.words[e].right))),
          s.words, EndsAt(s, t), Thread(Pool(PopStore(e, s.words[e].right)), END));
  }

  lemma FreeStored(s: State, t: int, e: int, next: int)
    requires Runs(s, t) && s.threads[t] == Thread(Pool(PopStore(e, next)), END)
    ensures Comes(s, On(s, t, 1), t, s.words, EndsAt(s, t).(free := next), Thread(Pool(Probe), e))
  {
    Steps(s, t, s.(freeHead := s.freeHead[t := next], threads := s.threads[t := Thread(Pool(Probe), e)]),
          s.words, EndsAt(s, t).(free := next), Thread(Pool(Probe), e));
  }

  /** Taking an element off the free list. */
  lemma Pops(s: State, t: int, e: int) returns (r: State)
    requires Runs(s, t) && s.threads[t] == Thread(Pool(Pop(e)), END) && In(s, e)
    ensures r == On(s, t, 2)
    ensures Comes(s, r, t, s.words, EndsAt(s, t).(free := s.words[e].right), Thread(Pool(Probe), e))
  {
    FreeRead(s, t, e);
    var a := On(s, t, 1);
    FreeStored(a, t, e, s.words[e].right);
    r := Then(s, t, 1, a, 1, s.words, EndsAt(s, t).(free := s.words[e].right), Thread(Pool(Probe), e));
  }

  lemma Relinked(s: State, t: int, x: int)
    requires Runs(s, t) && s.threads[t] == Thread(Pool(Push(x)), END) && In(s, x)
    ensures Comes(s, On(s, t, 1), t, s.words[x := Word(END, s.freeHead[t])], EndsAt(s, t),
                  Thread(Pool(PushStore(x)), END))
  {
    Steps(s, t, Store(s, t, x, Word(END, s.freeHead[t]), Pool(PushStore(x))),
          s.words[x := Word(END, s.freeHead[t])], EndsAt(s, t), Thread(Pool(PushStore(x)), END));
  }

  lemma FreeMoved(s: State, t: int, x: int)
    requires Runs(s, t) && s.threads[t] == Thread(Pool(PushStore(x)), END)
    ensures Comes(s, On(s, t, 1), t, s.words, EndsAt(s, t).(free := x), Thread(Pool(Idle), END))
  {
    Steps(s, t, s.(freeHead := s.freeHead[t := x], threads := s.threads[t := Thread(Pool(Idle), END)]),
          s.words, EndsAt(s, t).(free := x), Thread(Pool(Idle), END));
  }

  /** Putting one back. */
  lemma Pushes(s: State, t: int, x: int) returns (r: State)
    requires Runs(s, t) && s.threads[t] == Thread(Pool(Push(x)), END) && In(s, x)
    ensures r == On(s, t, 2)
    ensures Comes(s, r, t, s.words[x := Word(END, s.freeHead[t])], EndsAt(s, t).(free := x), Thread(Pool(Idle), END))
  {
    Relinked(s, t, x);
    var a := On(s, t, 1);
    FreeMoved(a, t, x);
    r := Then(s, t, 1, a, 1, s.words[x := Word(END, s.freeHead[t])], EndsAt(s, t).(free := x), Thread(Pool(Idle), END));
  }
}
