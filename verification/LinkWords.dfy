/**
 The per-thread LRU lists and free lists of src/LFLRUHashTable.h as a transition system:
 any number of threads, one step per atomic load, store or compare-and-swap of a link word.

 Every element owns one 64-bit word holding its left and right link.  A half that reads
 ACCESS_LOCK_MARK is locked.  `Step` runs one thread from one atomic access to the next;
 a run is any sequence of (thread, choice) pairs, so all interleavings are covered.
 */
module LinkWords {

  const LOCK := 0xFFFF_FFFF  // ACCESS_LOCK_MARK
  const END := 0xFFFF_FFFE   // LIST_END_MARK

  datatype Word = Word(left: int, right: int)

  /** unlinkElement(e): lock the target, then its left neighbour, then its right neighbour.
      tl, ll and rl are the words loaded for the three; lx and rx the words expected next. */
  datatype Unlinking =
    | LoadTarget(e: int)
    | LockTarget(e: int, tl: Word)
    | LoadLeft(e: int, tl: Word)
    | LoadRight(e: int, tl: Word, ll: Word)
    | LockLeft(e: int, tl: Word, ll: Word, rl: Word)
    | RestoreTarget(e: int, tl: Word)
    | LockRight(e: int, tl: Word, ll: Word, rl: Word)
    | RestoreBoth(e: int, tl: Word, ll: Word)
    | RestoreLeft(e: int, l: int, ll: Word, retry: bool)
    | RelinkLeft(e: int, tl: Word, lx: Word, rx: Word)
    | ReloadLeft(e: int, tl: Word, rx: Word)
    | RelinkRight(e: int, tl: Word, rx: Word)
    | ReloadRight(e: int, tl: Word)
    | Detach(e: int)

  /** linkHead(e). */
  datatype Linking =
    | LinkStore
    | LinkLoad(oldHead: int)
    | LinkOld(oldHead: int, w: Word)
    | LinkTail
    | LinkHead

  /** unlinkTail: x is the old tail and p its left neighbour. */
  datatype Trimming =
    | TailRead
    | TailLoad(x: int)
    | TailLeft(x: int, p: int)
    | TailCas(x: int, p: int, pl: Word)
    | TailReload(x: int, p: int)
    | TailStore(x: int, p: int)
    | TailEmpty(x: int)
    | HeadEmpty(x: int)
    | TailDetach(x: int)

  /** Everything around them: the thread's free list and the answer of the index. */
  datatype Pooling =
    | Idle
    | Pop(e: int)
    | PopStore(e: int, next: int)
    | Probe
    | CheckFree
    | Push(e: int)
    | PushStore(e: int)
    | Wild  // an access outside the element storage

  /** In `Link`, isNew tells an insertion from a move. */
  datatype PC = Unlink(u: Unlinking) | Link(e: int, isNew: bool, k: Linking) | Trim(m: Trimming) | Pool(p: Pooling)

  /** `spare` is the element popped for an insertion that has not been used yet, or END. */
  datatype Thread = Thread(pc: PC, spare: int)

  datatype State = State(
    words: seq<Word>,
    head: seq<int>, tail: seq<int>, freeHead: seq<int>,
    threads: seq<Thread>)

  /** What the environment decides: which operation starts, what the index answered,
      and whether a weak compare-and-swap fails spuriously. */
  datatype Choice =
    | StartMove(e: int)  // get or set found its key at element e
    | StartInsert        // insert or insertOrSet
    | Miss               // the key is new
    | Hit(e: int)        // insertOrSet found its key at element e
    | Duplicate          // insert found its key
    | Go
    | Spurious

  predicate Shaped(s: State) {
    && |s.words| <= END
    && |s.threads| == |s.head| == |s.tail| == |s.freeHead|
  }

  predicate SameShape(s: State, r: State) {
    Shaped(r) && |r.threads| == |s.threads| && |r.words| == |s.words|
  }

  predicate In(s: State, e: int) { 0 <= e < |s.words| }

  predicate Runs(s: State, t: int) { Shaped(s) && 0 <= t < |s.threads| }

  function Goto(s: State, t: int, pc: PC): (r: State)
    requires Runs(s, t)
    ensures SameShape(s, r)
  {
    s.(threads := s.threads[t := s.threads[t].(pc := pc)])
  }

  function Put(s: State, e: int, w: Word): (r: State)
    requires In(s, e)
    ensures Shaped(s) ==> SameShape(s, r)
  {
    s.(words := s.words[e := w])
  }

  /** Write a word and go on. */
  function Store(s: State, t: int, e: int, w: Word, pc: PC): (r: State)
    requires Runs(s, t) && In(s, e)
    ensures SameShape(s, r)
  {
    Goto(Put(s, e, w), t, pc)
  }

  function Crash(s: State, t: int): (r: State)
    requires Runs(s, t)
    ensures SameShape(s, r)
  {
    Goto(s, t, Pool(Wild))
  }

  /** Where an operation that only moved an element continues. */
  function Leave(s: State, t: int): (r: State)
    requires Runs(s, t)
    ensures SameShape(s, r)
  {
    var x := s.threads[t].spare;
    s.(threads := s.threads[t := Thread(Pool(if x == END then Idle else Push(x)), END)])
  }

  predicate Marked(w: Word, m: int) { w.left == m || w.right == m }

  function StepUnlink(s: State, t: int, u: Unlinking, c: Choice): (r: State)
    requires Runs(s, t)
    ensures SameShape(s, r)
  {
    match u
    case LoadTarget(e) =>
      if !In(s, e) then Crash(s, t)
      else if Marked(s.words[e], END) then Leave(s, t)
      else if Marked(s.words[e], LOCK) then s
      else Goto(s, t, Unlink(LockTarget(e, s.words[e])))
    case LockTarget(e, tl) =>
      if !In(s, e) then Crash(s, t)
      else if c.Spurious? || s.words[e] != tl then Goto(s, t, Unlink(LoadTarget(e)))
      else Store(s, t, e, Word(LOCK, LOCK), Unlink(LoadLeft(e, tl)))
    case LoadLeft(e, tl) =>
      if !In(s, tl.left) then Crash(s, t)
      else Goto(s, t, Unlink(LoadRight(e, tl, s.words[tl.left])))
    case LoadRight(e, tl, ll) =>
      if !In(s, tl.right) then Crash(s, t)
      else Goto(s, t, Unlink(LockLeft(e, tl, ll, s.words[tl.right])))
    case LockLeft(e, tl, ll, rl) =>
      if !In(s, e) || !In(s, tl.left) then Crash(s, t)
      else if ll.left == END then Leave(Put(s, e, tl), t)
      else if ll.left == LOCK || ll.right != e then Store(s, t, e, tl, Unlink(LoadTarget(e)))
      else if c.Spurious? || s.words[tl.left] != ll then Goto(s, t, Unlink(RestoreTarget(e, tl)))
      else Store(s, t, tl.left, Word(ll.left, LOCK), Unlink(LockRight(e, tl, ll, rl)))
    case RestoreTarget(e, tl) =>
      if !In(s, e) then Crash(s, t)
      else Store(s, t, e, tl, Unlink(LoadTarget(e)))
    case LockRight(e, tl, ll, rl) =>
      if !In(s, e) || !In(s, tl.right) then Crash(s, t)
      else if rl.right == END then Store(s, t, e, tl, Unlink(RestoreLeft(e, tl.left, ll, false)))
      else if rl.right == LOCK || rl.left != e then
        Store(s, t, e, tl, Unlink(RestoreLeft(e, tl.left, ll, true)))
      else if c.Spurious? || s.words[tl.right] != rl then Goto(s, t, Unlink(RestoreBoth(e, tl, ll)))
      else Store(s, t, tl.right, Word(LOCK, rl.right),
                Unlink(RelinkLeft(e, tl, Word(ll.left, LOCK), Word(LOCK, rl.right))))
    case RestoreBoth(e, tl, ll) =>
      if !In(s, e) then Crash(s, t)
      else Store(s, t, e, tl, Unlink(RestoreLeft(e, tl.left, ll, true)))
    case RestoreLeft(e, l, ll, retry) =>
      if !In(s, l) then Crash(s, t)
      else if retry then Store(s, t, l, ll, Unlink(LoadTarget(e)))
      else Leave(Put(s, l, ll), t)
    case RelinkLeft(e, tl, lx, rx) =>
      if !In(s, tl.left) then Crash(s, t)
      else if c.Spurious? || s.words[tl.left] != lx then Goto(s, t, Unlink(ReloadLeft(e, tl, rx)))
      else Store(s, t, tl.left, Word(lx.left, tl.right), Unlink(RelinkRight(e, tl, rx)))
    case ReloadLeft(e, tl, rx) =>
      if !In(s, tl.left) then Crash(s, t)
      else Goto(s, t, Unlink(RelinkLeft(e, tl, s.words[tl.left], rx)))
    case RelinkRight(e, tl, rx) =>
      if !In(s, tl.right) then Crash(s, t)
      else if c.Spurious? || s.words[tl.right] != rx then Goto(s, t, Unlink(ReloadRight(e, tl)))
      else Store(s, t, tl.right, Word(tl.left, rx.right), Unlink(Detach(e)))
    case ReloadRight(e, tl) =>
      if !In(s, tl.right) then Crash(s, t)
      else Goto(s, t, Unlink(RelinkRight(e, tl, s.words[tl.right])))
    case Detach(e) =>
      if !In(s, e) then Crash(s, t)
      else Store(s, t, e, Word(END, END), Link(e, false, LinkStore))
  }

  function StepLink(s: State, t: int, e: int, isNew: bool, k: Linking): (r: State)
    requires Runs(s, t)
    ensures SameShape(s, r)
  {
    match k
    case LinkStore =>
      if !In(s, e) then Crash(s, t)
      else
        var h := s.head[t];
        Store(s, t, e, Word(END, h), Link(e, isNew, if h == END then LinkTail else LinkLoad(h)))
    case LinkLoad(h) =>
      if !In(s, h) then Crash(s, t)
      else Goto(s, t, Link(e, isNew, LinkOld(h, s.words[h])))
    case LinkOld(h, w) =>
      if !In(s, h) then Crash(s, t)
      else Store(s, t, h, Word(e, w.right), Link(e, isNew, LinkHead))
    case LinkTail =>
      Goto(s.(tail := s.tail[t := e]), t, Link(e, isNew, LinkHead))
    case LinkHead =>
      var s' := s.(head := s.head[t := e]);
      if isNew then Goto(s', t, Pool(CheckFree)) else Leave(s', t)
  }

  function StepTrim(s: State, t: int, m: Trimming, c: Choice): (r: State)
    requires Runs(s, t)
    ensures SameShape(s, r)
  {
    match m
    case TailRead => Goto(s, t, Trim(TailLoad(s.tail[t])))
    case TailLoad(x) =>
      if !In(s, x) then Crash(s, t)
      else
        var w := s.words[x];
        if w.left == LOCK || w.right != END then s
        else if w.left != END then Goto(s, t, Trim(TailLeft(x, w.left)))
        else Goto(s, t, Trim(TailEmpty(x)))
    case TailLeft(x, p) =>
      if !In(s, p) then Crash(s, t)
      else
        var w := s.words[p];
        Goto(s, t, Trim(if w.left == LOCK || w.right != x then TailLoad(x) else TailCas(x, p, w)))
    case TailCas(x, p, pl) =>
      if !In(s, p) then Crash(s, t)
      else if pl.left == LOCK || pl.right != x || c.Spurious? || s.words[p] != pl then
        Goto(s, t, Trim(TailReload(x, p)))
      else Store(s, t, p, Word(pl.left, END), Trim(TailStore(x, p)))
    case TailReload(x, p) =>
      if !In(s, p) then Crash(s, t)
      else Goto(s, t, Trim(TailCas(x, p, s.words[p])))
    case TailStore(x, p) => Goto(s.(tail := s.tail[t := p]), t, Trim(TailDetach(x)))
    case TailEmpty(x) => Goto(s.(tail := s.tail[t := END]), t, Trim(HeadEmpty(x)))
    case HeadEmpty(x) => Goto(s.(head := s.head[t := END]), t, Trim(TailDetach(x)))
    case TailDetach(x) =>
      if !In(s, x) then Crash(s, t)
      else Store(s, t, x, Word(END, END), Pool(Push(x)))
  }

  function StepPool(s: State, t: int, p: Pooling, c: Choice): (r: State)
    requires Runs(s, t)
    ensures SameShape(s, r)
  {
    match p
    case Idle =>
      (match c
       case StartMove(e) => if In(s, e) then Goto(s, t, Unlink(LoadTarget(e))) else s
       case StartInsert => Goto(s, t, Pool(Pop(s.freeHead[t])))
       case _ => s)
    case Pop(e) =>
      if !In(s, e) then Crash(s, t)
      else Goto(s, t, Pool(PopStore(e, s.words[e].right)))
    case PopStore(e, next) =>
      s.(freeHead := s.freeHead[t := next], threads := s.threads[t := Thread(Pool(Probe), e)])
    case Probe =>
      var x := s.threads[t].spare;
      (match c
       case Miss => s.(threads := s.threads[t := Thread(Link(x, true, LinkStore), END)])
       case Hit(e) => if In(s, e) then Goto(s, t, Unlink(LoadTarget(e))) else s
       case Duplicate => s.(threads := s.threads[t := Thread(Pool(Push(x)), END)])
       case _ => s)
    case CheckFree =>
      Goto(s, t, if s.freeHead[t] == END then Trim(TailRead) else Pool(Idle))
    case Push(e) =>
      if !In(s, e) then Crash(s, t)
      else Store(s, t, e, Word(END, s.freeHead[t]), Pool(PushStore(e)))
    case PushStore(e) =>
      s.(freeHead := s.freeHead[t := e], threads := s.threads[t := Thread(Pool(Idle), END)])
    case Wild => s
  }

  /** One atomic access of thread t. */
  function Step(s: State, t: int, c: Choice): (r: State)
    requires Runs(s, t)
    ensures SameShape(s, r)
  {
    match s.threads[t].pc
    case Unlink(u) => StepUnlink(s, t, u, c)
    case Link(e, isNew, k) => StepLink(s, t, e, isNew, k)
    case Trim(m) => StepTrim(s, t, m, c)
    case Pool(p) => StepPool(s, t, p, c)
  }

  /** The word of element e, the r-th of its block. */
  function StartWord(e: int, r: int, per: int, owned: bool): Word {
    Word(END, if owned && r + 1 == per then END else e + 1)
  }

  /** The state the constructor leaves: thread t's free list is the t-th block of `per` elements;
      elements beyond the last block belong to no list. */
  function Start(n: nat, threads: nat): State
    requires 0 < threads <= n
  {
    var per := n / threads;
    State(
      seq(n, e => StartWord(e, e % per, per, e < threads * per)),
      seq(threads, _ => END), seq(threads, _ => END), seq(threads, t => t * per),
      seq(threads, _ => Thread(Pool(Idle), END)))
  }
}
