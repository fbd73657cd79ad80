/** The steps of a thread on the ends of its own lists: linkHead, unlinkTail and its free list. */
module LinkEnds {
  import opened LinkWords
  import opened LinkInvariant
  import opened LinkSteps

  /** Element e becomes the first of thread t's list, before h (END when the list is empty). */
  function Prepended(v: View, t: int, e: int, h: int): View
    requires Has(v, e) && 0 <= t < |v.first| == |v.last|
  {
    if Has(v, h) then
      var v1 := Set(v, h, v.cells[h].(prev := e));
      Set(v1, e, Cell(InList(t), END, h, v.cells[h].rank - 1, NOBODY, NOBODY)).(first := v.first[t := e])
    else
      Set(v, e, Cell(InList(t), END, END, 0, NOBODY, NOBODY)).(first := v.first[t := e], last := v.last[t := e])
  }

  /** The last element x of thread t's list goes to its hands; p is its left neighbour or END. */
  function Trimmed(v: View, t: int, x: int, p: int): View
    requires Has(v, x) && 0 <= t < |v.first| == |v.last|
  {
    var v1 := Set(v, x, v.cells[x].(place := InHand(t)));
    if Has(v, p) then Set(v1, p, v1.cells[p].(next := END)).(last := v.last[t := p])
    else v1.(first := v.first[t := END], last := v.last[t := END])
  }

  function Popped(v: View, t: int, e: int, next: int): View
    requires Has(v, e) && 0 <= t < |v.free|
  {
    var v1 := Set(v, e, v.cells[e].(place := InHand(t))).(free := v.free[t := next]);
    if Has(v, next) then Set(v1, next, v1.cells[next].(prev := END)) else v1
  }

  function Pushed(v: View, t: int, e: int): View
    requires Has(v, e) && 0 <= t < |v.free|
  {
    var f := v.free[t];
    if Has(v, f) then
      var v1 := Set(v, f, v.cells[f].(prev := e));
      Set(v1, e, Cell(InFree(t), END, f, v.cells[f].rank - 1, NOBODY, NOBODY)).(free := v.free[t := e])
    else
      Set(v, e, Cell(InFree(t), END, END, 0, NOBODY, NOBODY)).(free := v.free[t := e])
  }

  function FollowLink(s: State, v: View, t: int, e: int, k: Linking): View
    requires Sized(s, v) && Runs(s, t)
  {
    if !In(s, e) then v
    else
      match k
      case LinkOld(h, _) => Prepended(v, t, e, h)
      case LinkTail => Prepended(v, t, e, END)
      case _ => v
  }

  function FollowTrim(s: State, v: View, t: int, m: Trimming, c: Choice): View
    requires Sized(s, v) && Runs(s, t)
  {
    match m
    case TailCas(x, p, pl) =>
      if !In(s, x) || !In(s, p) || pl.left == LOCK || pl.right != x || c.Spurious? || s.words[p] != pl then v
      else Trimmed(v, t, x, p)
    case TailEmpty(x) => if In(s, x) then Trimmed(v, t, x, END) else v
    case _ => v
  }

  function FollowPool(s: State, v: View, t: int, p: Pooling): View
    requires Sized(s, v) && Runs(s, t)
  {
    match p
    case PopStore(e, next) => if In(s, e) then Popped(v, t, e, next) else v
    case PushStore(e) => if In(s, e) then Pushed(v, t, e) else v
    case _ => v
  }

  /** How the view follows any step. */
  function Follow(s: State, v: View, t: int, c: Choice): View
    requires Sized(s, v) && Runs(s, t)
  {
    match s.threads[t].pc
    case Unlink(u) => FollowUnlink(s, v, t, u, c)
    case Link(e, _, k) => FollowLink(s, v, t, e, k)
    case Trim(m) => FollowTrim(s, v, t, m, c)
    case Pool(p) => FollowPool(s, v, t, p)
  }

  // ---- linkHead ----

  ghost predicate Links(s: State, v: View, t: int, e: int, isNew: bool, k: Linking) {
    Inv(s, v) && Runs(s, t) && s.threads[t].pc == Link(e, isNew, k)
  }

  /** Thread t rewrites the word of an element it holds unlocked: the view stays. */
  lemma RewriteHeld(s: State, v: View, s': State, t: int, e: int, th: Thread)
    requires Inv(s, v) && Runs(s, t) && Held(v, t, e) && |s'.words| == |s.words|
    requires s' == Put(s, e, s'.words[e]).(threads := s.threads[t := th])
    requires s'.words[e].left == END && s'.words[e].right != LOCK
    requires OwnerOK(s', v, t) && At(s'.words, v, t, th) && SpareOK(v, t, th)
    requires FullOf(th.pc) == LeftOf(th.pc) == RightOf(th.pc) == NOBODY && !s.threads[t].pc.Unlink?
    requires HandOf(s.threads[t].pc) == HandOf(th.pc) && s.threads[t].spare == th.spare
    ensures Inv(s', v)
  {
    assert ElemOK(s.words[e], v, e);
    assert v == Unlocked(v, e);
    Rewrite(s, v, s', v, t, e, th);
  }

  lemma LinkStoreStep(s: State, v: View, t: int, e: int, isNew: bool)
    requires Links(s, v, t, e, isNew, LinkStore)
    ensures Inv(StepLink(s, t, e, isNew, LinkStore), v)
  {
    assert ThreadOK(s, v, t) && OwnerOK(s, v, t) && ElemOK(s.words[e], v, e);
    var s' := StepLink(s, t, e, isNew, LinkStore);
    RewriteHeld(s, v, s', t, e, s'.threads[t]);
  }

  lemma LinkLoadStep(s: State, v: View, t: int, e: int, isNew: bool, h: int)
    requires Links(s, v, t, e, isNew, LinkLoad(h))
    ensures Inv(StepLink(s, t, e, isNew, LinkLoad(h)), v)
  {
    assert ThreadOK(s, v, t) && OwnerOK(s, v, t) && ElemOK(s.words[h], v, h);
    var s' := StepLink(s, t, e, isNew, LinkLoad(h));
    Quiet(s, v, s', t, s'.threads[t]);
  }

  /** Thread t may put its element e before the first element h of its list. */
  ghost predicate CanPrepend(s: State, v: View, t: int, e: int, h: int) {
    && Inv(s, v) && Runs(s, t) && Held(v, t, e) && h == v.first[t] && s.words[e] == Word(END, h)
  }

  /** The first element of t's list, if there is one. */
  ghost predicate ListHead(v: View, t: int, h: int) {
    && |v.cells| <= END && 0 <= t < |v.first| == |v.last| && h == v.first[t] && (h == END <==> v.last[t] == END)
    && (h != END ==> Has(v, h) && v.cells[h].place == InList(t) && v.cells[h].prev == END)
  }

  lemma PrependSelf(v: View, t: int, e: int, h: int)
    requires ListHead(v, t, h) && Held(v, t, e) && v.last[t] != e
    ensures ElemOK(Word(END, h), Prepended(v, t, e, h), e)
  {}

  lemma PrependNext(w: Word, v: View, t: int, e: int, h: int)
    requires ListHead(v, t, h) && h != END && Held(v, t, e) && ElemOK(w, v, h)
    ensures ElemOK(Word(e, v.cells[h].next), Prepended(v, t, e, h), h)
  {}

  lemma PrependFar(w: Word, v: View, t: int, e: int, h: int, y: int)
    requires ListHead(v, t, h) && Held(v, t, e) && Has(v, y) && y != e && y != h && ElemOK(w, v, y)
    requires v.last[t] != END ==> Has(v, v.last[t]) && v.cells[v.last[t]].place == InList(t)
    ensures Undisturbed(v, Prepended(v, t, e, h), y)
  {}

  lemma PrependElem(s: State, v: View, t: int, e: int, h: int, y: int)
    requires CanPrepend(s, v, t, e, h) && Has(v, y)
    ensures var w := if y == h then Word(e, v.cells[h].next) else s.words[y];
            ElemOK(w, Prepended(v, t, e, h), y)
  {
    assert ElemOK(s.words[y], v, y) && OwnerOK(s, v, t);
    if h != END { assert ElemOK(s.words[h], v, h); }
    if y == e {
      PrependSelf(v, t, e, h);
    } else if y == h {
      PrependNext(s.words[h], v, t, e, h);
    } else {
      PrependFar(s.words[y], v, t, e, h, y);
      StaysOK(s.words[y], v, Prepended(v, t, e, h), y);
    }
  }

  lemma PrependSpares(s: State, v: View, s': State, t: int, e: int, h: int, u: int)
    requires CanPrepend(s, v, t, e, h) && |s'.words| == |s.words| && |s'.threads| == |s.threads|
    requires |s'.tail| == |s.tail| && |s'.head| == |s.head|
    requires s' == s.(words := s'.words, tail := s.tail[t := s'.tail[t]], threads := s.threads[t := s'.threads[t]])
    requires forall y {:trigger s'.words[y]} :: In(s, y) && y != h ==> s'.words[y] == s.words[y]
    requires 0 <= u < |s.threads| && u != t
    ensures Sized(s', Prepended(v, t, e, h)) && Spares(s, v, s', Prepended(v, t, e, h), u)
  {
    var v' := Prepended(v, t, e, h);
    assert OwnerOK(s, v, t);
    HeldNotMine(s, v, t, e, u);
    if h != END {
      assert ElemOK(s.words[h], v, h);
      EndNotMine(s, v, t, h, u);
    }
    forall x | Has(v, x)
      ensures SameLocks(v.cells[x], v'.cells[x], u)
      ensures Mine(v, u, x) ==> v'.cells[x] == v.cells[x] && s'.words[x] == s.words[x]
    {}
  }

  /** What t has in hand is not another thread's. */
  lemma HeldNotMine(s: State, v: View, t: int, e: int, u: int)
    requires Inv(s, v) && Held(v, t, e) && 0 <= u < |s.threads| && u != t
    ensures !Mine(v, u, e)
  {
    assert ElemOK(s.words[e], v, e) && OwnerOK(s, v, u);
  }

  /** Nor is an unlocked element of t's list. */
  lemma EndNotMine(s: State, v: View, t: int, x: int, u: int)
    requires Inv(s, v) && Has(v, x) && v.cells[x].place == InList(t) && 0 <= u < |s.threads| && u != t
    requires (v.cells[x].prev == END || v.cells[x].next == END) || v.cells[x].lockL == v.cells[x].lockR == NOBODY
    ensures !Mine(v, u, x) && v.cells[x].lockL == v.cells[x].lockR == NOBODY
  {
    assert ElemOK(s.words[x], v, x) && OwnerOK(s, v, u);
  }

  lemma PrependThread(s: State, v: View, s': State, t: int, e: int, isNew: bool, k: Linking, h: int)
    requires CanPrepend(s, v, t, e, h) && s.threads[t].pc == Link(e, isNew, k) && !k.LinkHead?
    requires s' == s.(words := s'.words, tail := s'.tail,
                      threads := s.threads[t := s.threads[t].(pc := Link(e, isNew, LinkHead))])
    requires |s'.words| == |s.words| && |s'.tail| == |s.tail|
    requires s'.tail[t] == if h == END then e else s.tail[t]
    ensures var v' := Prepended(v, t, e, h); Sized(s', v') && OwnerOK(s', v', t) && ThreadOK(s', v', t)
  {
    var v' := Prepended(v, t, e, h);
    assert ThreadOK(s, v, t) && OwnerOK(s, v, t);
    if h != END { assert ElemOK(s.words[h], v, h); }
    PrependOwner(s, v, s', t, e, h);
    forall y | Has(v', y) ensures Owns(v'.cells[y], t, s'.threads[t], y) {
      assert Owns(v.cells[y], t, s.threads[t], y);
      PrependOwns(v, t, e, h, Link(e, isNew, k), isNew, s.threads[t].spare, y);
    }
  }

  lemma PrependOwns(v: View, t: int, e: int, h: int, pc: PC, isNew: bool, spare: int, y: int)
    requires ListHead(v, t, h) && Held(v, t, e) && Has(v, y) && pc.Link? && HandOf(pc) == e && spare != e
    requires Owns(v.cells[y], t, Thread(pc, spare), y)
    ensures Owns(Prepended(v, t, e, h).cells[y], t, Thread(Link(e, isNew, LinkHead), spare), y)
  {}

  lemma PrependOwner(s: State, v: View, s': State, t: int, e: int, h: int)
    requires Sized(s, v) && Runs(s, t) && OwnerOK(s, v, t) && ListHead(v, t, h) && Held(v, t, e)
    requires s.threads[t].pc.Link?
    requires Shaped(s') && |s'.words| == |s.words| && |s'.threads| == |s.threads|
    requires s'.freeHead == s.freeHead && s'.tail[t] == (if h == END then e else s.tail[t])
    requires s'.threads[t].pc.Link? && s'.threads[t].pc.k.LinkHead?
    ensures OwnerOK(s', Prepended(v, t, e, h), t)
  {}

  lemma PrependStep(s: State, v: View, t: int, e: int, isNew: bool, k: Linking)
    requires Links(s, v, t, e, isNew, k) && (k.LinkOld? || k.LinkTail?)
    ensures Inv(StepLink(s, t, e, isNew, k), FollowLink(s, v, t, e, k))
  {
    assert ThreadOK(s, v, t) && OwnerOK(s, v, t);
    Prepend(s, v, t, e, isNew, k, if k.LinkOld? then k.oldHead else END, StepLink(s, t, e, isNew, k));
  }

  /** The element is on the list once the old head, or the tail, points to it. */
  lemma Prepend(s: State, v: View, t: int, e: int, isNew: bool, k: Linking, h: int, s': State)
    requires CanPrepend(s, v, t, e, h) && s.threads[t].pc == Link(e, isNew, k) && !k.LinkHead?
    requires h != END ==> Has(v, h)
    requires s' == s.(words := if h == END then s.words else s.words[h := Word(e, v.cells[h].next)],
                      tail := if h == END then s.tail[t := e] else s.tail,
                      threads := s.threads[t := s.threads[t].(pc := Link(e, isNew, LinkHead))])
    ensures Inv(s', Prepended(v, t, e, h))
  {
    var v' := Prepended(v, t, e, h);
    forall y | Has(v', y) ensures ElemOK(s'.words[y], v', y) { PrependElem(s, v, t, e, h, y); }
    forall u | 0 <= u < |s.threads| && u != t ensures Spares(s, v, s', v', u) {
      PrependSpares(s, v, s', t, e, h, u);
    }
    PrependThread(s, v, s', t, e, isNew, k, h);
    Settle(s, v, s', v', t);
  }

  /** A step that only rewrites thread t's own head or tail. */
  lemma OwnEnd(s: State, v: View, s': State, t: int, th: Thread)
    requires Inv(s, v) && Runs(s, t) && Shaped(s') && |s'.threads| == |s.threads|
    requires s' == s.(head := s.head[t := s'.head[t]], tail := s.tail[t := s'.tail[t]], threads := s.threads[t := th])
    requires SameClaims(s.threads[t], th)
    requires OwnerOK(s', v, t) && At(s.words, v, t, th) && SpareOK(v, t, th)
    ensures Inv(s', v)
  {
    assert ThreadOK(s, v, t);
    forall x | Has(v, x) ensures Owns(v.cells[x], t, th, x) && ElemOK(s'.words[x], v, x) {
      assert Owns(v.cells[x], t, s.threads[t], x) && ElemOK(s.words[x], v, x);
    }
    Settle(s, v, s', v, t);
  }

  lemma LinkHeadStep(s: State, v: View, t: int, e: int, isNew: bool)
    requires Links(s, v, t, e, isNew, LinkHead)
    ensures Inv(StepLink(s, t, e, isNew, LinkHead), v)
  {
    assert ThreadOK(s, v, t) && OwnerOK(s, v, t);
    var s' := StepLink(s, t, e, isNew, LinkHead);
    OwnEnd(s, v, s', t, s'.threads[t]);
  }

  lemma LinkStep(s: State, v: View, t: int, e: int, isNew: bool, k: Linking)
    requires Links(s, v, t, e, isNew, k)
    ensures Inv(StepLink(s, t, e, isNew, k), FollowLink(s, v, t, e, k))
  {
    match k
    case LinkStore => LinkStoreStep(s, v, t, e, isNew);
    case LinkLoad(h) => LinkLoadStep(s, v, t, e, isNew, h);
    case LinkOld(_, _) => PrependStep(s, v, t, e, isNew, k);
    case LinkTail => PrependStep(s, v, t, e, isNew, k);
    case LinkHead => LinkHeadStep(s, v, t, e, isNew);
  }

  // ---- unlinkTail ----

  ghost predicate Trims(s: State, v: View, t: int, m: Trimming) {
    Inv(s, v) && Runs(s, t) && s.threads[t].pc == Trim(m)
  }

  lemma TrimQuietStep(s: State, v: View, t: int, m: Trimming, c: Choice)
    requires Trims(s, v, t, m) && (m.TailRead? || m.TailLoad? || m.TailLeft? || m.TailReload?)
    ensures Inv(StepTrim(s, t, m, c), v)
  {
    assert ThreadOK(s, v, t) && OwnerOK(s, v, t) && ElemOK(s.words[v.last[t]], v, v.last[t]);
    var s' := StepTrim(s, t, m, c);
    Quiet(s, v, s', t, s'.threads[t]);
  }

  /** Thread t may cut the last element x of its list off its left neighbour p. */
  ghost predicate CanTrim(s: State, v: View, t: int, x: int, p: int) {
    && Inv(s, v) && Runs(s, t) && x == v.last[t] != END && Has(v, x) && p == v.cells[x].prev
    && (p != END ==> Has(v, p) && v.cells[p].lockL == v.cells[p].lockR == NOBODY)
  }

  /** The last element x of t's list and its left neighbour p, if it has one. */
  ghost predicate ListTail(v: View, t: int, x: int, p: int) {
    && |v.cells| <= END && 0 <= t < |v.first| == |v.last| && Has(v, x) && x == v.last[t]
         && v.cells[x].place == InList(t)
    && p == v.cells[x].prev && v.cells[x].next == END
    && (p == END <==> x == v.first[t])
    && (p != END ==> Has(v, p) && p != x && v.cells[p].place == InList(t) && v.cells[p].next == x
                     && v.cells[p].lockL == v.cells[p].lockR == NOBODY)
  }

  lemma TrimSelf(w: Word, v: View, t: int, x: int, p: int)
    requires ListTail(v, t, x, p) && ElemOK(w, v, x)
    ensures ElemOK(w, Trimmed(v, t, x, p), x)
  {}

  lemma TrimNext(w: Word, v: View, t: int, x: int, p: int)
    requires ListTail(v, t, x, p) && p != END && ElemOK(w, v, p)
    ensures ElemOK(Word(v.cells[p].prev, END), Trimmed(v, t, x, p), p)
  {}

  lemma TrimFar(w: Word, v: View, t: int, x: int, p: int, y: int)
    requires ListTail(v, t, x, p) && Has(v, y) && y != x && y != p && ElemOK(w, v, y)
    ensures Undisturbed(v, Trimmed(v, t, x, p), y)
  {}

  lemma TrimElem(s: State, v: View, t: int, x: int, p: int, y: int)
    requires CanTrim(s, v, t, x, p) && Has(v, y)
    ensures var w := if y == p then Word(v.cells[p].prev, END) else s.words[y];
            ElemOK(w, Trimmed(v, t, x, p), y)
  {
    assert ElemOK(s.words[y], v, y) && ElemOK(s.words[x], v, x) && OwnerOK(s, v, t);
    if y == x {
      TrimSelf(s.words[x], v, t, x, p);
    } else if y == p {
      TrimNext(s.words[p], v, t, x, p);
    } else {
      TrimFar(s.words[y], v, t, x, p, y);
      StaysOK(s.words[y], v, Trimmed(v, t, x, p), y);
    }
  }

  lemma TrimSpares(s: State, v: View, s': State, t: int, x: int, p: int, u: int)
    requires CanTrim(s, v, t, x, p) && |s'.words| == |s.words| && |s'.threads| == |s.threads|
    requires |s'.tail| == |s.tail|
    requires s' == s.(words := s'.words, tail := s.tail[t := s'.tail[t]], threads := s.threads[t := s'.threads[t]])
    requires forall y {:trigger s'.words[y]} :: In(s, y) && y != p ==> s'.words[y] == s.words[y]
    requires 0 <= u < |s.threads| && u != t
    ensures Sized(s', Trimmed(v, t, x, p)) && Spares(s, v, s', Trimmed(v, t, x, p), u)
  {
    var v' := Trimmed(v, t, x, p);
    assert ElemOK(s.words[x], v, x) && OwnerOK(s, v, t);
    EndNotMine(s, v, t, x, u);
    if p != END { EndNotMine(s, v, t, p, u); }
    forall y | Has(v, y)
      ensures SameLocks(v.cells[y], v'.cells[y], u)
      ensures Mine(v, u, y) ==> v'.cells[y] == v.cells[y] && s'.words[y] == s.words[y]
    {}
  }

  function AfterCut(x: int, p: int): Trimming { if p == END then HeadEmpty(x) else TailStore(x, p) }

  lemma TrimThread(s: State, v: View, s': State, t: int, x: int, p: int)
    requires CanTrim(s, v, t, x, p) && s.threads[t].pc.Trim? && HandOf(s.threads[t].pc) == NOBODY
    requires s' == s.(words := s'.words, tail := s'.tail,
                      threads := s.threads[t := s.threads[t].(pc := Trim(AfterCut(x, p)))])
    requires |s'.words| == |s.words| && |s'.tail| == |s.tail|
    requires p == END ==> s'.tail[t] == END
    ensures var v' := Trimmed(v, t, x, p); Sized(s', v') && OwnerOK(s', v', t) && ThreadOK(s', v', t)
  {
    var v' := Trimmed(v, t, x, p);
    assert ThreadOK(s, v, t) && OwnerOK(s, v, t) && ElemOK(s.words[x], v, x);
    TrimOwner(s, v, s', t, x, p);
    forall y | Has(v', y) ensures Owns(v'.cells[y], t, s'.threads[t], y) {
      assert Owns(v.cells[y], t, s.threads[t], y);
      TrimOwns(v, t, x, p, s.threads[t], y);
    }
  }

  lemma TrimOwns(v: View, t: int, x: int, p: int, th: Thread, y: int)
    requires ListTail(v, t, x, p) && Has(v, y) && th.pc.Trim? && HandOf(th.pc) == NOBODY && Owns(v.cells[y], t, th, y)
    ensures Owns(Trimmed(v, t, x, p).cells[y], t, th.(pc := Trim(AfterCut(x, p))), y)
  {}

  lemma TrimOwner(s: State, v: View, s': State, t: int, x: int, p: int)
    requires Sized(s, v) && Runs(s, t) && OwnerOK(s, v, t) && ListTail(v, t, x, p) && s.threads[t].pc.Trim?
    requires !s.threads[t].pc.m.HeadEmpty? && !s.threads[t].pc.m.TailStore?
    requires Shaped(s') && |s'.words| == |s.words| && |s'.threads| == |s.threads|
    requires s'.freeHead == s.freeHead && s'.head == s.head && (p == END ==> s'.tail[t] == END)
    requires s'.threads[t].pc == Trim(AfterCut(x, p))
    ensures OwnerOK(s', Trimmed(v, t, x, p), t)
  {}

  lemma CutTail(s: State, v: View, s': State, t: int, x: int, p: int)
    requires CanTrim(s, v, t, x, p) && s.threads[t].pc.Trim? && HandOf(s.threads[t].pc) == NOBODY
    requires s' == s.(words := if p == END then s.words else s.words[p := Word(v.cells[p].prev, END)],
                      tail := if p == END then s.tail[t := END] else s.tail,
                      threads := s.threads[t := s.threads[t].(pc := Trim(AfterCut(x, p)))])
    ensures Inv(s', Trimmed(v, t, x, p))
  {
    var v' := Trimmed(v, t, x, p);
    assert OwnerOK(s, v, t);
    forall y | Has(v', y) ensures ElemOK(s'.words[y], v', y) { TrimElem(s, v, t, x, p, y); }
    forall u | 0 <= u < |s.threads| && u != t ensures Spares(s, v, s', v', u) {
      TrimSpares(s, v, s', t, x, p, u);
    }
    TrimThread(s, v, s', t, x, p);
    Settle(s, v, s', v', t);
  }

  /** The left neighbour of the tail, and that it is not locked when its word reads as loaded. */
  lemma TailFacts(s: State, v: View, t: int, m: Trimming)
    requires Trims(s, v, t, m) && m.TailCas?
    ensures In(s, m.x) && In(s, m.p)
    ensures m.pl.left != LOCK && m.pl.right == m.x && s.words[m.p] == m.pl ==>
              CanTrim(s, v, t, m.x, m.p) && v.cells[m.p].prev == m.pl.left
  {
    assert ThreadOK(s, v, t) && OwnerOK(s, v, t) && ElemOK(s.words[m.x], v, m.x) && ElemOK(s.words[m.p], v, m.p);
  }

  lemma TailCasStep(s: State, v: View, t: int, m: Trimming, c: Choice)
    requires Trims(s, v, t, m) && m.TailCas?
    ensures Inv(StepTrim(s, t, m, c), FollowTrim(s, v, t, m, c))
  {
    var TailCas(x, p, pl) := m;
    TailFacts(s, v, t, m);
    var s' := StepTrim(s, t, m, c);
    if pl.left == LOCK || pl.right != x || c.Spurious? || s.words[p] != pl {
      assert ThreadOK(s, v, t) && OwnerOK(s, v, t);
      Quiet(s, v, s', t, s'.threads[t]);
    } else {
      CutTail(s, v, s', t, x, p);
    }
  }

  lemma TailEmptyStep(s: State, v: View, t: int, m: Trimming, c: Choice)
    requires Trims(s, v, t, m) && m.TailEmpty?
    ensures Inv(StepTrim(s, t, m, c), FollowTrim(s, v, t, m, c))
  {
    assert ThreadOK(s, v, t);
    CutTail(s, v, StepTrim(s, t, m, c), t, m.x, END);
  }

  lemma TailEndStep(s: State, v: View, t: int, m: Trimming, c: Choice)
    requires Trims(s, v, t, m) && (m.TailStore? || m.HeadEmpty?)
    ensures Inv(StepTrim(s, t, m, c), v)
  {
    assert ThreadOK(s, v, t) && OwnerOK(s, v, t);
    var s' := StepTrim(s, t, m, c);
    OwnEnd(s, v, s', t, s'.threads[t]);
  }

  lemma TailDetachStep(s: State, v: View, t: int, m: Trimming, c: Choice)
    requires Trims(s, v, t, m) && m.TailDetach?
    ensures Inv(StepTrim(s, t, m, c), v)
  {
    assert ThreadOK(s, v, t) && OwnerOK(s, v, t) && ElemOK(s.words[m.x], v, m.x);
    var s' := StepTrim(s, t, m, c);
    RewriteHeld(s, v, s', t, m.x, s'.threads[t]);
  }

  lemma TrimStep(s: State, v: View, t: int, m: Trimming, c: Choice)
    requires Trims(s, v, t, m)
    ensures Inv(StepTrim(s, t, m, c), FollowTrim(s, v, t, m, c))
  {
    match m
    case TailCas(_, _, _) => TailCasStep(s, v, t, m, c);
    case TailEmpty(_) => TailEmptyStep(s, v, t, m, c);
    case TailStore(_, _) => TailEndStep(s, v, t, m, c);
    case HeadEmpty(_) => TailEndStep(s, v, t, m, c);
    case TailDetach(_) => TailDetachStep(s, v, t, m, c);
    case _ => TrimQuietStep(s, v, t, m, c);
  }

  // ---- free list ----

  ghost predicate Pools(s: State, v: View, t: int, p: Pooling) {
    Inv(s, v) && Runs(s, t) && s.threads[t].pc == Pool(p)
  }

  /** The start of an operation and the load of the free list's head. */
  lemma PopQuietStep(s: State, v: View, t: int, p: Pooling, c: Choice)
    requires Pools(s, v, t, p) && (p.Idle? || p.Pop?)
    ensures Inv(StepPool(s, t, p, c), v)
  {
    assert ThreadOK(s, v, t) && OwnerOK(s, v, t);
    if p.Pop? { assert ElemOK(s.words[p.e], v, p.e); }
    var s' := StepPool(s, t, p, c);
    Quiet(s, v, s', t, s'.threads[t]);
  }

  /** The answer of the index. */
  lemma ProbeStep(s: State, v: View, t: int, c: Choice)
    requires Pools(s, v, t, Probe)
    ensures Inv(StepPool(s, t, Probe, c), v)
  {
    assert ThreadOK(s, v, t) && OwnerOK(s, v, t);
    var s' := StepPool(s, t, Probe, c);
    Quiet(s, v, s', t, s'.threads[t]);
  }

  lemma CheckFreeStep(s: State, v: View, t: int, c: Choice)
    requires Pools(s, v, t, CheckFree)
    ensures Inv(StepPool(s, t, CheckFree, c), v)
  {
    assert ThreadOK(s, v, t) && OwnerOK(s, v, t);
    var s' := StepPool(s, t, CheckFree, c);
    Quiet(s, v, s', t, s'.threads[t]);
  }

  lemma PoolQuietStep(s: State, v: View, t: int, p: Pooling, c: Choice)
    requires Pools(s, v, t, p) && !p.PopStore? && !p.Push? && !p.PushStore?
    ensures Inv(StepPool(s, t, p, c), v)
  {
    match p
    case Probe => ProbeStep(s, v, t, c);
    case CheckFree => CheckFreeStep(s, v, t, c);
    case Wild =>
    case _ => PopQuietStep(s, v, t, p, c);
  }

  lemma PushFirstStep(s: State, v: View, t: int, p: Pooling, c: Choice)
    requires Pools(s, v, t, p) && p.Push?
    ensures Inv(StepPool(s, t, p, c), v)
  {
    assert ThreadOK(s, v, t) && OwnerOK(s, v, t) && ElemOK(s.words[p.e], v, p.e);
    var s' := StepPool(s, t, p, c);
    RewriteHeld(s, v, s', t, p.e, s'.threads[t]);
  }

  /** Element e is the first of t's free list; next is the one after it, or END. */
  ghost predicate FreeHead(v: View, t: int, e: int, next: int) {
    && |v.cells| <= END && 0 <= t < |v.free| && Has(v, e) && e == v.free[t] && v.cells[e].place == InFree(t)
    && next == v.cells[e].next && (next != END ==> Has(v, next) && v.cells[next].place == InFree(t))
  }

  lemma PopSelf(w: Word, v: View, t: int, e: int, next: int)
    requires FreeHead(v, t, e, next) && ElemOK(w, v, e) && t < |v.first|
    ensures ElemOK(w, Popped(v, t, e, next), e)
  {}

  lemma PopNext(w: Word, v: View, t: int, e: int, next: int)
    requires FreeHead(v, t, e, next) && next != END && ElemOK(w, v, next) && v.cells[next].prev == e != next
    ensures ElemOK(w, Popped(v, t, e, next), next)
  {}

  lemma PopFar(w: Word, v: View, t: int, e: int, next: int, y: int)
    requires FreeHead(v, t, e, next) && v.cells[e].prev == END && (next != END ==> v.cells[next].prev == e)
    requires Has(v, y) && y != e && y != next && ElemOK(w, v, y)
    ensures Undisturbed(v, Popped(v, t, e, next), y)
  {}

  lemma PopElem(s: State, v: View, t: int, e: int, y: int)
    requires Inv(s, v) && Runs(s, t) && e == v.free[t] != END && Has(v, e) && Has(v, y)
    ensures ElemOK(s.words[y], Popped(v, t, e, v.cells[e].next), y)
  {
    var next := v.cells[e].next;
    assert ElemOK(s.words[y], v, y) && ElemOK(s.words[e], v, e) && OwnerOK(s, v, t);
    if y == e {
      PopSelf(s.words[y], v, t, e, next);
    } else if y == next {
      PopNext(s.words[y], v, t, e, next);
    } else {
      PopFar(s.words[y], v, t, e, next, y);
      StaysOK(s.words[y], v, Popped(v, t, e, next), y);
    }
  }

  lemma PushElem(s: State, v: View, t: int, e: int, y: int)
    requires Inv(s, v) && Runs(s, t) && Held(v, t, e) && s.words[e] == Word(END, v.free[t]) && Has(v, y)
    ensures ElemOK(s.words[y], Pushed(v, t, e), y)
  {
    var f := v.free[t];
    assert ElemOK(s.words[y], v, y) && OwnerOK(s, v, t);
    if f != END { assert ElemOK(s.words[f], v, f); }
    if y == e {
      PushSelf(v, t, e);
    } else if y == f {
      PushNext(s.words[f], v, t, e);
    } else {
      PushFar(s.words[y], v, t, e, y);
      StaysOK(s.words[y], v, Pushed(v, t, e), y);
    }
  }

  /** The first element of t's free list, if there is one. */
  ghost predicate FreeFirst(v: View, t: int) {
    && |v.cells| <= END && 0 <= t < |v.free|
    && (v.free[t] != END ==>
        Has(v, v.free[t]) && v.cells[v.free[t]].place == InFree(t) && v.cells[v.free[t]].prev == END)
  }

  lemma PushSelf(v: View, t: int, e: int)
    requires FreeFirst(v, t) && Held(v, t, e)
    ensures ElemOK(Word(END, v.free[t]), Pushed(v, t, e), e)
  {}

  lemma PushNext(w: Word, v: View, t: int, e: int)
    requires FreeFirst(v, t) && v.free[t] != END && Held(v, t, e) && ElemOK(w, v, v.free[t])
    ensures ElemOK(w, Pushed(v, t, e), v.free[t])
  {}

  lemma PushFar(w: Word, v: View, t: int, e: int, y: int)
    requires FreeFirst(v, t) && Held(v, t, e) && Has(v, y) && y != e && y != v.free[t] && ElemOK(w, v, y)
    ensures Undisturbed(v, Pushed(v, t, e), y)
  {}

  /** Only thread t's free list, its head and an element in t's hands change. */
  lemma PoolSpares(s: State, v: View, s': State, v': View, t: int, a: int, b: int, u: int)
    requires Inv(s, v) && Runs(s, t) && SameSize(s, v, s', v') && 0 <= u < |s.threads| && u != t
    requires s' == s.(freeHead := s.freeHead[t := s'.freeHead[t]], threads := s.threads[t := s'.threads[t]])
    requires v'.first == v.first && v'.last == v.last && v'.free == v.free[t := v'.free[t]]
    requires forall y {:trigger v'.cells[y]} :: Has(v, y) && y != a && y != b ==> v'.cells[y] == v.cells[y]
    requires forall y :: y == a || y == b ==> (Has(v, y) ==>
               && v.cells[y].place in {InFree(t), InHand(t)} && v'.cells[y].place in {InFree(t), InHand(t)}
               && v.cells[y].lockL == v.cells[y].lockR == NOBODY == v'.cells[y].lockL == v'.cells[y].lockR)
    ensures Spares(s, v, s', v', u)
  {
    assert OwnerOK(s, v, u);
    assert Has(v, a) ==> !Mine(v, u, a);
    assert Has(v, b) ==> !Mine(v, u, b);
  }

  /** The state after a pop, and after a push. */
  function PoppedState(s: State, t: int, e: int, next: int): (r: State)
    requires Runs(s, t)
    ensures SameShape(s, r)
  {
    s.(freeHead := s.freeHead[t := next], threads := s.threads[t := Thread(Pool(Probe), e)])
  }

  function PushedState(s: State, t: int, e: int): (r: State)
    requires Runs(s, t)
    ensures SameShape(s, r)
  {
    s.(freeHead := s.freeHead[t := e], threads := s.threads[t := Thread(Pool(Idle), END)])
  }

  lemma PopOwns(v: View, t: int, e: int, next: int, y: int)
    requires FreeHead(v, t, e, next) && Has(v, y) && Owns(v.cells[y], t, Thread(Pool(PopStore(e, next)), END), y)
    requires v.cells[e].lockL == v.cells[e].lockR == NOBODY
    ensures Owns(Popped(v, t, e, next).cells[y], t, Thread(Pool(Probe), e), y)
  {}

  lemma PopOwner(s: State, v: View, t: int, e: int, next: int)
    requires Sized(s, v) && Runs(s, t) && OwnerOK(s, v, t) && FreeHead(v, t, e, next) && s.threads[t].pc.Pool?
    requires next != e
    ensures OwnerOK(PoppedState(s, t, e, next), Popped(v, t, e, next), t)
  {}

  /** What a thread that pops e relies on. */
  lemma PopFacts(s: State, v: View, t: int, e: int, next: int)
    requires Pools(s, v, t, PopStore(e, next))
    ensures FreeHead(v, t, e, next) && s.threads[t].spare == END && v.cells[e].prev == END
    ensures v.cells[e].lockL == v.cells[e].lockR == NOBODY
    ensures next != e
    ensures next != END ==> v.cells[next].lockL == v.cells[next].lockR == NOBODY
  {
    assert ThreadOK(s, v, t) && OwnerOK(s, v, t) && ElemOK(s.words[e], v, e);
    if next != END { assert ElemOK(s.words[next], v, next); }
  }

  lemma PopThread(s: State, v: View, t: int, e: int, next: int)
    requires Pools(s, v, t, PopStore(e, next))
    ensures Has(v, e)
    ensures var s', v' := PoppedState(s, t, e, next), Popped(v, t, e, next);
            Sized(s', v') && OwnerOK(s', v', t) && ThreadOK(s', v', t)
  {
    PopFacts(s, v, t, e, next);
    assert ThreadOK(s, v, t) && OwnerOK(s, v, t);
    PopOwner(s, v, t, e, next);
    var v' := Popped(v, t, e, next);
    forall y | Has(v', y) ensures Owns(v'.cells[y], t, Thread(Pool(Probe), e), y) {
      assert Owns(v.cells[y], t, s.threads[t], y);
      PopOwns(v, t, e, next, y);
    }
  }

  lemma PushOwns(v: View, t: int, e: int, y: int)
    requires FreeFirst(v, t) && Held(v, t, e) && Has(v, y) && 0 <= t
    requires Owns(v.cells[y], t, Thread(Pool(PushStore(e)), END), y)
    ensures Owns(Pushed(v, t, e).cells[y], t, Thread(Pool(Idle), END), y)
  {}

  lemma PushOwner(s: State, v: View, t: int, e: int)
    requires Sized(s, v) && Runs(s, t) && OwnerOK(s, v, t) && FreeFirst(v, t) && Held(v, t, e) && s.threads[t].pc.Pool?
    ensures OwnerOK(PushedState(s, t, e), Pushed(v, t, e), t)
  {}

  /** What a thread that pushes e relies on. */
  lemma PushFacts(s: State, v: View, t: int, e: int)
    requires Pools(s, v, t, PushStore(e))
    ensures FreeFirst(v, t) && Held(v, t, e) && s.words[e] == Word(END, v.free[t]) && s.threads[t].spare == END
    ensures v.cells[e].lockR == NOBODY
    ensures v.free[t] != END ==> v.cells[v.free[t]].lockL == v.cells[v.free[t]].lockR == NOBODY
  {
    assert ThreadOK(s, v, t) && OwnerOK(s, v, t) && ElemOK(s.words[e], v, e);
    if v.free[t] != END { assert ElemOK(s.words[v.free[t]], v, v.free[t]); }
  }

  lemma PushThread(s: State, v: View, t: int, e: int)
    requires Pools(s, v, t, PushStore(e))
    ensures Has(v, e)
    ensures var s', v' := PushedState(s, t, e), Pushed(v, t, e);
            Sized(s', v') && OwnerOK(s', v', t) && ThreadOK(s', v', t)
  {
    PushFacts(s, v, t, e);
    assert ThreadOK(s, v, t) && OwnerOK(s, v, t);
    PushOwner(s, v, t, e);
    var v' := Pushed(v, t, e);
    forall y | Has(v', y) ensures Owns(v'.cells[y], t, Thread(Pool(Idle), END), y) {
      assert Owns(v.cells[y], t, s.threads[t], y);
      PushOwns(v, t, e, y);
    }
  }

  lemma PopStoreStep(s: State, v: View, t: int, e: int, next: int)
    requires Pools(s, v, t, PopStore(e, next))
    ensures Has(v, e) && Inv(PoppedState(s, t, e, next), Popped(v, t, e, next))
  {
    PopFacts(s, v, t, e, next);
    var s', v' := PoppedState(s, t, e, next), Popped(v, t, e, next);
    forall y | Has(v', y) ensures ElemOK(s'.words[y], v', y) { PopElem(s, v, t, e, y); }
    PopThread(s, v, t, e, next);
    forall u | 0 <= u < |s.threads| && u != t ensures Spares(s, v, s', v', u) {
      PoolSpares(s, v, s', v', t, e, next, u);
    }
    Settle(s, v, s', v', t);
  }

  lemma PushStoreStep(s: State, v: View, t: int, e: int)
    requires Pools(s, v, t, PushStore(e))
    ensures Has(v, e) && Inv(PushedState(s, t, e), Pushed(v, t, e))
  {
    PushFacts(s, v, t, e);
    var s', v' := PushedState(s, t, e), Pushed(v, t, e);
    forall y | Has(v', y) ensures ElemOK(s'.words[y], v', y) { PushElem(s, v, t, e, y); }
    PushThread(s, v, t, e);
    forall u | 0 <= u < |s.threads| && u != t ensures Spares(s, v, s', v', u) {
      PoolSpares(s, v, s', v', t, e, v.free[t], u);
    }
    Settle(s, v, s', v', t);
  }

  /** The invariant survives one atomic access of any thread, whatever the environment chooses. */
  lemma StepPreserves(s: State, v: View, t: int, c: Choice)
    requires Inv(s, v) && Runs(s, t)
    ensures Inv(Step(s, t, c), Follow(s, v, t, c))
  {
    match s.threads[t].pc
    case Unlink(u) => UnlinkStep(s, v, t, u, c);
    case Link(e, isNew, k) => LinkStep(s, v, t, e, isNew, k);
    case Trim(m) => TrimStep(s, v, t, m, c);
    case Pool(p) =>
      match p
      case Push(_) => PushFirstStep(s, v, t, p, c);
      case PopStore(e, next) => PopStoreStep(s, v, t, e, next);
      case PushStore(e) => PushStoreStep(s, v, t, e);
      case _ => PoolQuietStep(s, v, t, p, c);
  }
}
