/** What the link-word transition system guarantees over whole runs. */
module LinkTheorems {
  import opened LinkWords
  import opened LinkInvariant
  import opened LinkSteps
  import opened LinkEnds
  import opened Pigeonhole
  import opened Blocks

  datatype Event = Event(t: int, c: Choice)

  ghost predicate Legal(es: seq<Event>, threads: int) {
    forall i :: 0 <= i < |es| ==> 0 <= es[i].t < threads
  }

  /** The state after the events, oldest first. */
  ghost function Run(s: State, es: seq<Event>): (r: State)
    requires Shaped(s) && Legal(es, |s.threads|)
    ensures SameShape(s, r)
  {
    if es == [] then s
    else
      var e := es[|es| - 1];
      Step(Run(s, es[..|es| - 1]), e.t, e.c)
  }

  // ---- the initial view ----

  /** Element e is the r-th of block q. */
  function FirstCell(e: int, q: int, r: int, per: int, owned: bool): Cell {
    if owned then
      Cell(InFree(q), if r == 0 then END else e - 1, if r + 1 == per then END else e + 1, e, NOBODY, NOBODY)
    else Cell(Unowned, END, END, 0, NOBODY, NOBODY)
  }

  function FirstView(n: nat, threads: nat): View
    requires 0 < threads <= n
  {
    var per := n / threads;
    View(
      seq(n, e => FirstCell(e, e / per, e % per, per, e < threads * per)),
      seq(threads, _ => END), seq(threads, _ => END), seq(threads, t => t * per))
  }

  /** An element of a free list all of whose neighbours are as the constructor left them. */
  lemma FreeBlockElem(v: View, x: int, q: int, r: int, per: int)
    requires Has(v, x) && |v.cells| <= END && 0 <= q < |v.free| && (r == 0 <==> x == v.free[q])
    requires v.cells[x] == FirstCell(x, q, r, per, true)
    requires r != 0 ==> Has(v, x - 1) && v.cells[x - 1] == FirstCell(x - 1, q, r - 1, per, true)
    requires r + 1 != per ==> Has(v, x + 1) && v.cells[x + 1] == FirstCell(x + 1, q, r + 1, per, true)
    requires 0 <= r < per
    ensures ElemOK(StartWord(x, r, per, true), v, x)
  {}

  lemma StartElem(n: nat, threads: nat, x: int)
    requires 0 < threads <= n <= END && 0 <= x < n
    ensures ElemOK(Start(n, threads).words[x], FirstView(n, threads), x)
  {
    var per := n / threads;
    WholeBlocks(n, threads);
    if x < threads * per {
      var q, r := x / per, x % per;
      Block(x, q, r, per, threads);
      FreeBlockElem(FirstView(n, threads), x, q, r, per);
    }
  }

  lemma StartInv(n: nat, threads: nat)
    requires 0 < threads <= n <= END
    ensures Inv(Start(n, threads), FirstView(n, threads))
  {
    var s, v, per := Start(n, threads), FirstView(n, threads), n / threads;
    WholeBlocks(n, threads);
    forall x | Has(v, x) ensures ElemOK(s.words[x], v, x) { StartElem(n, threads, x); }
    forall t | 0 <= t < |s.threads| ensures OwnerOK(s, v, t) && ThreadOK(s, v, t) {
      BlockStart(t, per, threads);
    }
  }

  // ---- every run ----

  ghost predicate SameUnowned(v: View, v': View) {
    && |v'.cells| == |v.cells|
    && forall x {:trigger v'.cells[x]} :: Has(v, x) ==> (v'.cells[x].place.Unowned? <==> v.cells[x].place.Unowned?)
  }

  lemma UnlinkKeepsUnowned(s: State, v: View, t: int, u: Unlinking, c: Choice)
    requires Unlinks(s, v, t, u)
    ensures SameUnowned(v, FollowUnlink(s, v, t, u, c))
  {
    assert ThreadOK(s, v, t);
  }

  lemma OwnKeepsUnowned(s: State, v: View, t: int, c: Choice)
    requires Inv(s, v) && Runs(s, t) && (s.threads[t].pc.Link? || s.threads[t].pc.Trim?)
    ensures SameUnowned(v, Follow(s, v, t, c))
  {
    assert ThreadOK(s, v, t) && OwnerOK(s, v, t);
  }

  lemma FollowKeepsUnowned(s: State, v: View, t: int, c: Choice)
    requires Inv(s, v) && Runs(s, t)
    ensures SameUnowned(v, Follow(s, v, t, c))
  {
    match s.threads[t].pc
    case Unlink(u) => UnlinkKeepsUnowned(s, v, t, u, c);
    case Pool(p) =>
      assert ThreadOK(s, v, t) && OwnerOK(s, v, t);
    case _ => OwnKeepsUnowned(s, v, t, c);
  }

  /** In every reachable state of every interleaving some view satisfies the invariant. */
  lemma {:induction false} RunInv(n: nat, threads: nat, es: seq<Event>) returns (v: View)
    requires 0 < threads <= n <= END && Legal(es, threads)
    ensures Inv(Run(Start(n, threads), es), v) && SameUnowned(FirstView(n, threads), v)
  {
    if es == [] {
      StartInv(n, threads);
      v := FirstView(n, threads);
    } else {
      var w := RunInv(n, threads, es[..|es| - 1]);
      var m, e := Run(Start(n, threads), es[..|es| - 1]), es[|es| - 1];
      StepPreserves(m, w, e.t, e.c);
      FollowKeepsUnowned(m, w, e.t, e.c);
      v := Follow(m, w, e.t, e.c);
    }
  }

  // ---- from neighbours to chains ----

  /** L is the whole of a list: from `first`, each next to the one before, ending at END. */
  ghost predicate Chain(v: View, place: Place, first: int, L: seq<int>) {
    && Prefix(v, place, first, L)
    && (L == [] <==> first == END)
    && Ended(v, L)
    && (forall x {:trigger v.cells[x]} :: Has(v, x) && v.cells[x].place == place ==> x in L)
  }

  ghost predicate Ended(v: View, L: seq<int>) {
    L != [] ==> Has(v, L[|L| - 1]) && v.cells[L[|L| - 1]].next == END
  }

  ghost predicate Prefix(v: View, place: Place, first: int, L: seq<int>) {
    && (L != [] ==> L[0] == first)
    && (forall i {:trigger Nth(v, place, L, i)} :: 0 <= i < |L| ==> Nth(v, place, L, i))
  }

  ghost predicate Nth(v: View, place: Place, L: seq<int>, i: int)
    requires 0 <= i < |L|
  {
    && Has(v, L[i])
    && var c := v.cells[L[i]];
    && c.place == place
    && c.prev == (if i == 0 then END else L[i - 1])
    && (i < |L| - 1 ==> c.next == L[i + 1])
  }

  /** The pointwise facts from which a chain can be read off. */
  ghost predicate WellLinked(v: View, place: Place, first: int) {
    && |v.cells| <= END
    && (first != END ==> Has(v, first) && v.cells[first].place == place)
    && forall x {:trigger Linked(v, x)} :: Has(v, x) && v.cells[x].place == place ==>
         Linked(v, x) && (v.cells[x].prev == END <==> x == first)
  }

  lemma {:induction false} RankGrows(v: View, place: Place, first: int, L: seq<int>, i: int, j: int)
    requires WellLinked(v, place, first) && Prefix(v, place, first, L) && 0 <= i < j < |L|
    ensures Has(v, L[i]) && Has(v, L[j]) && v.cells[L[i]].rank < v.cells[L[j]].rank
    decreases j
  {
    assert Nth(v, place, L, i) && Nth(v, place, L, j) && Nth(v, place, L, j - 1);
    assert Linked(v, L[j]);
    if i < j - 1 { RankGrows(v, place, first, L, i, j - 1); }
  }

  lemma PrefixDistinct(v: View, place: Place, first: int, L: seq<int>)
    requires WellLinked(v, place, first) && Prefix(v, place, first, L)
    ensures Distinct(L) && |L| <= |v.cells|
  {
    forall i | 0 <= i < |L| ensures Has(v, L[i]) { assert Nth(v, place, L, i); }
    forall i, j | 0 <= i < j < |L| ensures L[i] != L[j] { RankGrows(v, place, first, L, i, j); }
    DistinctBelow(L, |v.cells|);
  }

  lemma {:induction false} Extend(v: View, place: Place, first: int, L: seq<int>) returns (M: seq<int>)
    requires WellLinked(v, place, first) && Prefix(v, place, first, L) && L != []
    ensures Prefix(v, place, first, M) && M != [] && Ended(v, M)
    decreases |v.cells| + 1 - |L|
  {
    PrefixDistinct(v, place, first, L);
    var z := L[|L| - 1];
    assert Nth(v, place, L, |L| - 1);
    var y := v.cells[z].next;
    if y == END {
      M := L;
    } else {
      assert Linked(v, z);
      forall i | 0 <= i < |L| + 1 ensures Nth(v, place, L + [y], i) {
        if i < |L| { assert Nth(v, place, L, i); }
      }
      M := Extend(v, place, first, L + [y]);
    }
  }

  /** No element of the list is missing from a maximal chain. */
  lemma {:induction false} Complete(v: View, place: Place, first: int, L: seq<int>, x: int, below: set<int>)
    requires WellLinked(v, place, first) && Prefix(v, place, first, L) && L != []
    requires Ended(v, L)
    requires Has(v, x) && v.cells[x].place == place
    requires forall y :: Has(v, y) && v.cells[y].rank < v.cells[x].rank ==> y in below
    requires forall y :: y in below ==> Has(v, y) && v.cells[y].rank < v.cells[x].rank
    ensures x in L
    decreases below
  {
    assert Linked(v, x);
    var p := v.cells[x].prev;
    if p != END {
      assert p in below;
      var lower := set y | y in below && v.cells[y].rank < v.cells[p].rank;
      assert p !in lower;
      Complete(v, place, first, L, p, lower);
      var i :| 0 <= i < |L| && L[i] == p;
      assert Nth(v, place, L, i);
    }
  }

  lemma FindChain(v: View, place: Place, first: int) returns (L: seq<int>)
    requires WellLinked(v, place, first)
    ensures Chain(v, place, first, L) && Distinct(L)
  {
    if first == END {
      L := [];
      forall x | Has(v, x) ensures v.cells[x].place != place {
        if v.cells[x].place == place {
          NoOrphan(v, place, x, set y | 0 <= y < |v.cells| && v.cells[y].rank < v.cells[x].rank);
        }
      }
    } else {
      assert Linked(v, first) && Nth(v, place, [first], 0);
      L := Extend(v, place, first, [first]);
      PrefixDistinct(v, place, first, L);
      forall x | Has(v, x) && v.cells[x].place == place ensures x in L {
        Complete(v, place, first, L, x, set y | 0 <= y < |v.cells| && v.cells[y].rank < v.cells[x].rank);
      }
    }
  }

  lemma {:induction false} NoOrphan(v: View, place: Place, x: int, below: set<int>)
    requires WellLinked(v, place, END) && Has(v, x) && v.cells[x].place == place
    requires forall y :: Has(v, y) && v.cells[y].rank < v.cells[x].rank ==> y in below
    requires forall y :: y in below ==> Has(v, y) && v.cells[y].rank < v.cells[x].rank
    ensures false
    decreases below
  {
    assert Linked(v, x);
    var p := v.cells[x].prev;
    assert p in below;
    var lower := set y | y in below && v.cells[y].rank < v.cells[p].rank;
    assert p !in lower;
    NoOrphan(v, place, p, lower);
  }

  lemma ListChain(s: State, v: View, t: int) returns (L: seq<int>, F: seq<int>)
    requires Inv(s, v) && Runs(s, t)
    ensures Chain(v, InList(t), v.first[t], L) && Distinct(L)
    ensures Chain(v, InFree(t), v.free[t], F) && Distinct(F)
  {
    assert OwnerOK(s, v, t);
    forall x | Has(v, x) ensures
      (v.cells[x].place in {InList(t), InFree(t)} ==> Linked(v, x))
      && (v.cells[x].place == InList(t) ==> (v.cells[x].prev == END <==> x == v.first[t]))
      && (v.cells[x].place == InFree(t) ==> (v.cells[x].prev == END <==> x == v.free[t]))
    {
      assert ElemOK(s.words[x], v, x);
    }
    L := FindChain(v, InList(t), v.first[t]);
    F := FindChain(v, InFree(t), v.free[t]);
  }

  // ---- the words themselves ----

  function Left(L: seq<int>, i: nat): int
    requires i < |L|
  {
    if i == 0 then END else L[i - 1]
  }

  function Right(L: seq<int>, i: nat): int
    requires i < |L|
  {
    if i + 1 == |L| then END else L[i + 1]
  }

  /** Reading through the lock mark, the words spell out L. */
  ghost predicate ReadsAs(s: State, L: seq<int>) {
    && Distinct(L)
    && forall i {:trigger L[i]} :: 0 <= i < |L| ==>
         && In(s, L[i])
         && s.words[L[i]].left in {LOCK, Left(L, i)}
         && s.words[L[i]].right in {LOCK, Right(L, i)}
  }

  ghost predicate FreeAs(s: State, t: int, F: seq<int>)
    requires Runs(s, t)
  {
    && Distinct(F)
    && s.freeHead[t] == (if F == [] then END else F[0])
    && forall i {:trigger F[i]} :: 0 <= i < |F| ==> In(s, F[i]) && s.words[F[i]] == Word(END, Right(F, i))
  }

  /** Each of the elements 0..total is in exactly one of the sequences or in `out`. */
  ghost predicate Partition(total: int, lists: seq<seq<int>>, frees: seq<seq<int>>, out: set<int>) {
    && (forall x :: 0 <= x < total ==>
          || (x in out)
          || (exists t :: 0 <= t < |lists| && x in lists[t])
          || (exists t :: 0 <= t < |frees| && x in frees[t]))
    && (forall t, u, x :: 0 <= t < |lists| && 0 <= u < |lists| && x in lists[t] && x in lists[u] ==> t == u)
    && (forall t, u, x :: 0 <= t < |frees| && 0 <= u < |frees| && x in frees[t] && x in frees[u] ==> t == u)
    && (forall t, u, x :: 0 <= t < |lists| && 0 <= u < |frees| && x in lists[t] ==> x !in frees[u])
    && (forall t, x :: 0 <= t < |lists| && x in lists[t] ==> x !in out)
    && (forall t, x :: 0 <= t < |frees| && x in frees[t] ==> x !in out)
  }

  /** Thread t has element x out of every list. */
  ghost predicate HeldBy(s: State, t: int, x: int) {
    0 <= t < |s.threads| && (x == HandOf(s.threads[t].pc) || x == s.threads[t].spare)
  }

  ghost predicate Carried(s: State, x: int) {
    exists t :: HeldBy(s, t, x)
  }

  ghost function Hands(s: State): set<int> {
    set x | 0 <= x < |s.words| && Carried(s, x)
  }

  lemma ListWords(s: State, v: View, t: int, L: seq<int>)
    requires Inv(s, v) && Runs(s, t) && Chain(v, InList(t), v.first[t], L) && Distinct(L)
    ensures ReadsAs(s, L)
  {
    forall i | 0 <= i < |L|
      ensures In(s, L[i]) && s.words[L[i]].left in {LOCK, Left(L, i)} && s.words[L[i]].right in {LOCK, Right(L, i)}
    {
      assert Nth(v, InList(t), L, i) && ElemOK(s.words[L[i]], v, L[i]);
    }
  }

  lemma FreeWords(s: State, v: View, t: int, F: seq<int>)
    requires Inv(s, v) && Runs(s, t) && Chain(v, InFree(t), v.free[t], F) && Distinct(F)
    ensures FreeAs(s, t, F)
  {
    assert OwnerOK(s, v, t);
    forall i | 0 <= i < |F| ensures In(s, F[i]) && s.words[F[i]] == Word(END, Right(F, i)) {
      assert Nth(v, InFree(t), F, i) && ElemOK(s.words[F[i]], v, F[i]);
    }
  }

  /** L and F are thread t's lists. */
  ghost predicate Lists(s: State, v: View, t: int, L: seq<int>, F: seq<int>)
    requires Sized(s, v) && Runs(s, t)
  {
    && Chain(v, InList(t), v.first[t], L) && ReadsAs(s, L)
    && Chain(v, InFree(t), v.free[t], F) && FreeAs(s, t, F)
  }

  lemma {:induction false} AllLists(s: State, v: View, k: nat) returns (lists: seq<seq<int>>, frees: seq<seq<int>>)
    requires Inv(s, v) && k <= |s.threads|
    ensures |lists| == |frees| == k
    ensures forall t {:trigger Lists(s, v, t, lists[t], frees[t])} :: 0 <= t < k ==> Lists(s, v, t, lists[t], frees[t])
  {
    if k == 0 {
      lists, frees := [], [];
    } else {
      var ls, fs := AllLists(s, v, k - 1);
      var L, F := ListChain(s, v, k - 1);
      ListWords(s, v, k - 1, L);
      FreeWords(s, v, k - 1, F);
      lists, frees := ls + [L], fs + [F];
      forall t | 0 <= t < k ensures Lists(s, v, t, lists[t], frees[t]) {
        if t < k - 1 { assert Lists(s, v, t, ls[t], fs[t]); }
      }
    }
  }

  lemma HandPlace(s: State, v: View, t: int, x: int)
    requires Inv(s, v) && Has(v, x)
    ensures v.cells[x].place == InHand(t) <==> HeldBy(s, t, x)
  {
    assert ElemOK(s.words[x], v, x);
    if 0 <= t < |s.threads| {
      assert ThreadOK(s, v, t) && Owns(v.cells[x], t, s.threads[t], x);
    }
  }

  lemma ChainMember(v: View, place: Place, first: int, L: seq<int>, x: int)
    requires Chain(v, place, first, L)
    ensures x in L <==> Has(v, x) && v.cells[x].place == place
  {
    if x in L {
      var i :| 0 <= i < |L| && L[i] == x;
      assert Nth(v, place, L, i);
    }
  }

  ghost predicate AllAre(s: State, v: View, lists: seq<seq<int>>, frees: seq<seq<int>>) {
    && Inv(s, v) && |lists| == |frees| == |s.threads|
    && forall t {:trigger Lists(s, v, t, lists[t], frees[t])} :: 0 <= t < |s.threads| ==>
         Lists(s, v, t, lists[t], frees[t])
  }

  lemma Member(s: State, v: View, lists: seq<seq<int>>, frees: seq<seq<int>>, t: int, x: int)
    requires AllAre(s, v, lists, frees) && Runs(s, t)
    ensures x in lists[t] <==> Has(v, x) && v.cells[x].place == InList(t)
    ensures x in frees[t] <==> Has(v, x) && v.cells[x].place == InFree(t)
  {
    assert Lists(s, v, t, lists[t], frees[t]);
    ChainMember(v, InList(t), v.first[t], lists[t], x);
    ChainMember(v, InFree(t), v.free[t], frees[t], x);
  }

  lemma CarriedPlace(s: State, v: View, x: int)
    requires Inv(s, v) && Has(v, x)
    ensures x in Hands(s) <==> v.cells[x].place.InHand?
  {
    if v.cells[x].place.InHand? { HandPlace(s, v, v.cells[x].place.owner, x); }
    if x in Hands(s) {
      var t :| HeldBy(s, t, x);
      HandPlace(s, v, t, x);
    }
  }

  lemma ListsPartition(s: State, v: View, lists: seq<seq<int>>, frees: seq<seq<int>>, total: int)
    requires AllAre(s, v, lists, frees)
    requires total <= |v.cells| && forall x :: 0 <= x < total ==> !v.cells[x].place.Unowned?
    ensures Partition(total, lists, frees, Hands(s))
  {
    forall t, u, x | 0 <= t < |lists| && 0 <= u < |lists|
      ensures x in lists[t] && x in lists[u] ==> t == u
      ensures x in frees[t] && x in frees[u] ==> t == u
      ensures x in lists[t] ==> x !in frees[u]
    {
      Member(s, v, lists, frees, t, x);
      Member(s, v, lists, frees, u, x);
    }
    forall t, x | 0 <= t < |lists| ensures x in lists[t] || x in frees[t] ==> x !in Hands(s) {
      Member(s, v, lists, frees, t, x);
      if Has(v, x) { CarriedPlace(s, v, x); }
    }
    forall x | 0 <= x < total ensures
      || x in Hands(s)
      || (exists t :: 0 <= t < |lists| && x in lists[t])
      || (exists t :: 0 <= t < |frees| && x in frees[t])
    {
      assert ElemOK(s.words[x], v, x);
      match v.cells[x].place
      case InList(o) => Member(s, v, lists, frees, o, x);
      case InFree(o) => Member(s, v, lists, frees, o, x);
      case _ => CarriedPlace(s, v, x);
    }
  }

  /** The thread is about to store its head, or its tail. */
  predicate StoresHead(pc: PC) { (pc.Link? && pc.k.LinkHead?) || (pc.Trim? && pc.m.HeadEmpty?) }
  predicate StoresTail(pc: PC) { pc.Trim? && pc.m.TailStore? }

  /** Lists, ends and free lists of thread t as its own variables name them: head and tail are the
      ends of the list except when the thread is about to store them, and the free list is not empty
      except when the thread has popped from it or is on its way to refill it. */
  ghost predicate Anchored(s: State, t: int, L: seq<int>, F: seq<int>)
    requires Runs(s, t)
  {
    var th := s.threads[t];
    && ReadsAs(s, L) && FreeAs(s, t, F)
    && (!StoresHead(th.pc) ==> s.head[t] == (if L == [] then END else L[0]))
    && (!StoresTail(th.pc) ==> s.tail[t] == (if L == [] then END else L[|L| - 1]))
    && (th.spare == END && !Refilling(th.pc) ==> F != [])
  }

  lemma ListsAnchored(s: State, v: View, t: int, L: seq<int>, F: seq<int>)
    requires Inv(s, v) && Runs(s, t) && Lists(s, v, t, L, F)
    ensures Anchored(s, t, L, F)
  {
    assert OwnerOK(s, v, t) && ThreadOK(s, v, t);
    if L != [] {
      assert Nth(v, InList(t), L, |L| - 1);
      assert ElemOK(s.words[L[|L| - 1]], v, L[|L| - 1]);
    }
  }

  /** Main theorem.  In every state of every interleaving of any number of threads, read through
      the lock marks, each thread's LRU list is a finite chain without repetition, its free list
      likewise, and each of the threads * (n / threads) elements is in exactly one of them or in
      the hands of a thread; head and tail are its ends at every program counter but the ones that
      store them, and a thread between operations has a non-empty free list. */
  lemma ListsAlwaysIntact(n: nat, threads: nat, es: seq<Event>) returns (lists: seq<seq<int>>, frees: seq<seq<int>>)
    requires 0 < threads <= n <= END && Legal(es, threads)
    ensures |lists| == |frees| == threads
    ensures forall t {:trigger lists[t]} :: 0 <= t < threads ==>
              Anchored(Run(Start(n, threads), es), t, lists[t], frees[t])
    ensures Partition(threads * (n / threads), lists, frees, Hands(Run(Start(n, threads), es)))
  {
    var s := Run(Start(n, threads), es);
    var v := RunInv(n, threads, es);
    lists, frees := AllLists(s, v, threads);
    forall t | 0 <= t < threads ensures Anchored(s, t, lists[t], frees[t]) {
      assert Lists(s, v, t, lists[t], frees[t]);
      ListsAnchored(s, v, t, lists[t], frees[t]);
    }
    WholeBlocks(n, threads);
    ListsPartition(s, v, lists, frees, threads * (n / threads));
  }

  /** No element is ever in the hands of two threads, and no thread ever reads outside the storage. */
  lemma HandsAreExclusive(n: nat, threads: nat, es: seq<Event>, t: int, u: int, x: int)
    requires 0 < threads <= n <= END && Legal(es, threads) && 0 <= x < n
    requires HeldBy(Run(Start(n, threads), es), t, x) && HeldBy(Run(Start(n, threads), es), u, x)
    ensures t == u && Run(Start(n, threads), es).threads[t].pc != Pool(Wild)
  {
    var s := Run(Start(n, threads), es);
    var v := RunInv(n, threads, es);
    HandPlace(s, v, t, x);
    HandPlace(s, v, u, x);
    assert ThreadOK(s, v, t);
  }

  lemma NeverWild(n: nat, threads: nat, es: seq<Event>, t: int)
    requires 0 < threads <= n <= END && Legal(es, threads) && 0 <= t < threads
    ensures Run(Start(n, threads), es).threads[t].pc != Pool(Wild)
  {
    var v := RunInv(n, threads, es);
    assert ThreadOK(Run(Start(n, threads), es), v, t);
  }

  ghost predicate Quiescent(s: State) {
    forall t :: 0 <= t < |s.threads| ==> s.threads[t] == Thread(Pool(Idle), END)
  }

  lemma IdleLocksNothing(s: State, v: View, x: int, t: int)
    requires Inv(s, v) && Quiescent(s) && Has(v, x) && 0 <= t < |s.threads|
    ensures v.cells[x].lockL != t && v.cells[x].lockR != t && v.cells[x].place != InHand(t)
  {
    assert ThreadOK(s, v, t) && Owns(v.cells[x], t, s.threads[t], x);
  }

  lemma NothingLocked(s: State, v: View, x: int)
    requires Inv(s, v) && Quiescent(s) && Has(v, x)
    ensures !Marked(s.words[x], LOCK) && !Carried(s, x)
  {
    assert ElemOK(s.words[x], v, x);
    var c := v.cells[x];
    if 0 <= c.lockL < |s.threads| { IdleLocksNothing(s, v, x, c.lockL); }
    if 0 <= c.lockR < |s.threads| { IdleLocksNothing(s, v, x, c.lockR); }
    if c.place.InHand? { IdleLocksNothing(s, v, x, c.place.owner); }
  }

  /** Once every thread is between operations, nothing is locked or held: the words are the lists. */
  lemma QuiescentWords(n: nat, threads: nat, es: seq<Event>, L: seq<int>, i: int)
    requires 0 < threads <= n <= END && Legal(es, threads)
    requires Quiescent(Run(Start(n, threads), es))
    requires ReadsAs(Run(Start(n, threads), es), L) && 0 <= i < |L|
    ensures Hands(Run(Start(n, threads), es)) == {}
    ensures Run(Start(n, threads), es).words[L[i]] == Word(Left(L, i), Right(L, i))
  {
    var s := Run(Start(n, threads), es);
    var v := RunInv(n, threads, es);
    forall x | Has(v, x) ensures !Marked(s.words[x], LOCK) && !Carried(s, x) { NothingLocked(s, v, x); }
    assert In(s, L[i]);
  }
}
