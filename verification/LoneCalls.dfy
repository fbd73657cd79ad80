/**
 A call by one thread of `Composed` while all others are between calls: step by step on link words
 and slots it does what `LruCache.Step` does to the cache that words and slots spell out.
 */
module LoneCalls {
  import opened Index
  import opened IndexTable
  import opened IndexMap
  import opened IndexEngine
  import opened LruRows
  import opened LruCache
  import opened LruTable
  import opened Sealing
  import L = LinkWords
  import S = SlotLocks
  import J = Composed
  import C = LinkChains
  import Words = LoneLinks
  import Lists = LoneLists
  import Slots = LoneSlots

  // ---- one thread alone ----

  /** Thread t is between calls. */
  ghost predicate Rests(b: J.Both, t: int)
    requires J.Runs(b, t)
  {
    b.link.threads[t] == L.Thread(L.Pool(L.Idle), L.END) && b.slot.pcs[t].Idle?
  }

  /** Thread t goes on alone with the same choice: k steps, or fewer if its call is over before or
      the run has ended. */
  ghost function On(home: int -> int, b: J.Both, t: int, ch: J.Choice, k: nat): (r: J.Both)
    requires J.Runs(b, t)
    ensures J.Runs(r, t) && |r.link.threads| == |b.link.threads|
    decreases k
  {
    if k == 0 || b.slot.ended || Rests(b, t) then b else On(home, J.Step(home, b, t, ch), t, ch, k - 1)
  }

  lemma {:induction false} OnAgain(home: int -> int, b: J.Both, t: int, ch: J.Choice, j: nat, k: nat)
    requires J.Runs(b, t)
    ensures On(home, b, t, ch, j + k) == On(home, On(home, b, t, ch, j), t, ch, k)
    decreases j
  {
    if j > 0 && !b.slot.ended && !Rests(b, t) {
      var a := J.Step(home, b, t, ch);
      OnAgain(home, a, t, ch, j - 1, k);
      OnNext(home, b, t, ch, j, a);
      OnNext(home, b, t, ch, j + k, a);
    }
  }

  lemma OnNext(home: int -> int, b: J.Both, t: int, ch: J.Choice, k: nat, a: J.Both)
    requires J.Runs(b, t) && k > 0 && !b.slot.ended && !Rests(b, t) && a == J.Step(home, b, t, ch)
    ensures J.Runs(a, t) && On(home, b, t, ch, k) == On(home, a, t, ch, k - 1)
  {}

  ghost predicate Reaches(home: int -> int, b: J.Both, t: int, ch: J.Choice, r: J.Both)
    requires J.Runs(b, t)
  {
    exists k: nat :: On(home, b, t, ch, k) == r
  }

  /** The thread gets from b to r; unfolded only where `GetsIs` calls for it. */
  ghost predicate Gets(home: int -> int, b: J.Both, t: int, ch: J.Choice, r: J.Both)
    requires J.Runs(b, t)
  {
    forall u {:trigger Look(u)} :: Look(u) ==> Reaches(home, b, t, ch, r)
  }

  lemma GetsIs(home: int -> int, b: J.Both, t: int, ch: J.Choice, r: J.Both)
    requires J.Runs(b, t)
    ensures Gets(home, b, t, ch, r) <==> Reaches(home, b, t, ch, r)
  {
    assert Look(0);
  }

  lemma GetsThere(home: int -> int, b: J.Both, t: int, ch: J.Choice, k: nat)
    requires J.Runs(b, t)
    ensures Gets(home, b, t, ch, On(home, b, t, ch, k))
  {
    GetsIs(home, b, t, ch, On(home, b, t, ch, k));
  }

  lemma GetsOn(home: int -> int, b: J.Both, t: int, ch: J.Choice, a: J.Both, r: J.Both)
    requires J.Runs(b, t) && Gets(home, b, t, ch, a) && J.Runs(a, t) && Gets(home, a, t, ch, r)
    ensures Gets(home, b, t, ch, r)
  {
    GetsIs(home, b, t, ch, a);
    GetsIs(home, a, t, ch, r);
    var j: nat :| On(home, b, t, ch, j) == a;
    var k: nat :| On(home, a, t, ch, k) == r;
    OnAgain(home, b, t, ch, j, k);
    GetsThere(home, b, t, ch, j + k);
  }

  lemma StepGets(home: int -> int, b: J.Both, t: int, ch: J.Choice)
    requires J.Runs(b, t) && !b.slot.ended && !Rests(b, t)
    ensures Gets(home, b, t, ch, J.Step(home, b, t, ch))
  {
    assert On(home, b, t, ch, 1) == On(home, J.Step(home, b, t, ch), t, ch, 0);
    GetsThere(home, b, t, ch, 1);
  }

  /** Outside the index the steps are those on the link words. */
  lemma {:induction false} WordsGet(home: int -> int, b: J.Both, t: int, ch: J.Choice, k: nat)
    requires J.Runs(b, t) && !b.slot.ended && b.slot.pcs[t].Idle? && !ch.spurious
    ensures J.Runs(J.Both(Words.On(b.link, t, k), b.slot), t)
    ensures Gets(home, b, t, ch, J.Both(Words.On(b.link, t, k), b.slot))
    decreases k
  {
    if k == 0 || Words.Paused(b.link.threads[t].pc) {
      GetsThere(home, b, t, ch, 0);
    } else {
      var a := J.Both(L.Step(b.link, t, L.Go), b.slot);
      WordsStep(home, b, t, ch);
      StepGets(home, b, t, ch);
      WordsGet(home, a, t, ch, k - 1);
      GetsOn(home, b, t, ch, a, J.Both(Words.On(b.link, t, k), b.slot));
    }
  }

  lemma WordsStep(home: int -> int, b: J.Both, t: int, ch: J.Choice)
    requires J.Runs(b, t) && !b.slot.ended && b.slot.pcs[t].Idle? && !ch.spurious
    requires !Words.Paused(b.link.threads[t].pc)
    ensures J.Step(home, b, t, ch) == J.Both(L.Step(b.link, t, L.Go), b.slot)
  {}

  /** Inside it they are those on the slots. */
  lemma {:induction false} SlotsGet(home: int -> int, b: J.Both, t: int, ch: J.Choice, k: nat)
    requires J.Runs(b, t) && !b.slot.pcs[t].Idle? && !ch.spurious
    ensures J.Runs(J.Both(b.link, Slots.On(home, b.slot, t, k)), t)
    ensures Gets(home, b, t, ch, J.Both(b.link, Slots.On(home, b.slot, t, k)))
    decreases k
  {
    if k == 0 || !Slots.Busy(b.slot, t) {
      GetsThere(home, b, t, ch, 0);
    } else {
      var a := J.Both(b.link, S.Step(home, b.slot, t, S.Go));
      SlotsStep(home, b, t, ch);
      StepGets(home, b, t, ch);
      if a.slot.pcs[t].Idle? { assert false; }
      SlotsGet(home, a, t, ch, k - 1);
      GetsOn(home, b, t, ch, a, J.Both(b.link, Slots.On(home, b.slot, t, k)));
    }
  }

  lemma SlotsStep(home: int -> int, b: J.Both, t: int, ch: J.Choice)
    requires J.Runs(b, t) && Slots.Busy(b.slot, t) && !ch.spurious
    ensures J.Step(home, b, t, ch) == J.Both(b.link, S.Step(home, b.slot, t, S.Go))
    ensures |S.Step(home, b.slot, t, S.Go).pcs| == |b.slot.pcs| && !S.Step(home, b.slot, t, S.Go).pcs[t].Idle?
  {}

  // ---- a call of the index ----

  /** What op means for the table g; unfolded only where `MeantIs` calls for it. */
  ghost predicate Meant(g: Table, home: int -> int, op: Op, o: Applied) {
    forall u {:trigger Look(u)} :: Look(u) ==> Homes(home, |g.slots|) && o == Apply(g, home, op)
  }

  lemma MeantIs(g: Table, home: int -> int, op: Op, o: Applied)
    ensures Meant(g, home, op, o) <==> Homes(home, |g.slots|) && o == Apply(g, home, op)
  {
    assert Look(0);
  }

  /** What an operation of thread t does to the hands. */
  function HandAfter(hand: seq<int>, t: int, op: Op, res: Res): seq<int> {
    if op.Remove? && 0 <= op.e < |hand| then hand[op.e := t]
    else if S.IsInsert(op) && res == Ok && 0 <= op.e < |hand| then hand[op.e := S.NOBODY]
    else hand
  }

  function Told(t: int, op: Op, res: Res): seq<S.Event> { [S.Invoked(t, op), S.Took(t, op, res), S.Returned(t, res)] }

  ghost predicate OthersStay(s: S.State, r: S.State, t: int) {
    && |r.pcs| == |s.pcs|
    && forall u {:trigger r.pcs[u]} :: 0 <= u < |s.pcs| && u != t ==> r.pcs[u] == s.pcs[u]
  }

  /** Nothing of another thread changes in the index; unfolded only where `AsideIs` calls for it. */
  ghost predicate Aside(s: S.State, r: S.State, t: int) {
    |r.pcs| == |s.pcs| && forall u {:trigger Look(u)} :: Look(u) ==> OthersStay(s, r, t)
  }

  lemma AsideIs(s: S.State, r: S.State, t: int)
    ensures Aside(s, r, t) <==> OthersStay(s, r, t)
  {
    assert Look(0);
  }

  /** Thread t is back from an operation that ended as a says. */
  ghost predicate Served(s: S.State, r: S.State, t: int, op: Op, a: Applied) {
    && Aside(s, r, t) && 0 <= t < |s.pcs| && r.pcs[t].Idle? && !r.ended
    && r.slots == a.t.slots && r.elems == a.t.elems && r.hand == HandAfter(s.hand, t, op, a.res)
    && r.trace == s.trace + Told(t, op, a.res)
  }

  /** It can call op. */
  ghost predicate Callable(home: int -> int, s: S.State, t: int, op: Op, g: Table) {
    && 0 <= t < |s.pcs| && s.pcs[t].Idle? && !s.ended && S.CanBegin(s, t, op) && |s.hand| == |s.elems|
    && WellTabled(g) && Homes(home, |g.slots|) && g == Table(s.slots, s.elems)
  }

  lemma Begins(home: int -> int, s: S.State, t: int, op: Op, g: Table)
    requires Callable(home, s, t, op, g)
    ensures var r := S.Step(home, s, t, S.Begin(op));
            && Slots.Called(home, r, t, op, g) && Aside(s, r, t) && r.trace == s.trace + [S.Invoked(t, op)]
            && r.hand == if op.Remove? then s.hand[op.e := t] else s.hand
  {
    AsideIs(s, S.Step(home, s, t, S.Begin(op)), t);
  }

  lemma Returns(home: int -> int, s: S.State, b: S.State, r: S.State, t: int, op: Op, a: Applied)
    requires 0 <= t < |s.pcs| && Aside(s, b, t) && b.trace == s.trace + [S.Invoked(t, op)]
    requires |s.hand| == |s.elems| && S.CanBegin(s, t, op)
    requires b.hand == (if op.Remove? then s.hand[op.e := t] else s.hand) && Slots.Answered(b, r, t, op, a)
    ensures Served(s, S.Step(home, r, t, S.Go), t, op, a)
  {
    var d := S.Step(home, r, t, S.Go);
    assert d.trace == s.trace + Told(t, op, a.res);
    AsideIs(s, b, t);
    AsideIs(s, d, t);
    forall u | 0 <= u < |s.pcs| && u != t ensures d.pcs[u] == s.pcs[u] {
      assert r.pcs[u] == b.pcs[u] && b.pcs[u] == s.pcs[u];
    }
  }

  /** The index has answered a and the thread is about to return. */
  ghost predicate AtReturn(home: int -> int, s: S.State, b: J.Both, r: J.Both, t: int, op: Op, a: Applied) {
    && J.Runs(r, t) && r.link == b.link && !r.slot.ended
    && r.slot.pcs[t].Return? && r.slot.pcs[t].c.op == op && r.slot.pcs[t].res == a.res
    && Served(s, S.Step(home, r.slot, t, S.Go), t, op, a)
  }

  /** From just after the call of op to just before its return, or to an overrun. */
  lemma IndexCall(home: int -> int, s: S.State, b: J.Both, t: int, ch: J.Choice, op: Op, g: Table) returns (r: J.Both)
    requires J.Runs(b, t) && !ch.spurious && Callable(home, s, t, op, g) && b.slot == S.Step(home, s, t, S.Begin(op))
    requires op.Remove? ==> Apply(g, home, op).res != Refused
    ensures Gets(home, b, t, ch, r) && J.Runs(r, t)
    ensures if TooLong(g, home, op) then r.slot.ended else AtReturn(home, s, b, r, t, op, Apply(g, home, op))
  {
    Begins(home, s, t, op, g);
    var k, d := Slots.AnswersAlone(home, b.slot, t, op, g);
    SlotsGet(home, b, t, ch, k);
    r := J.Both(b.link, d);
    TooLongIs(g, home, op);
    if Depth(g, home, op) <= S.BUFFER {
      Returns(home, s, b.slot, d, t, op, Apply(g, home, op));
    }
  }

  /** The step that returns. */
  lemma ReturnsTo(home: int -> int, s: S.State, b: J.Both, r: J.Both, t: int, ch: J.Choice, op: Op, a: Applied)
    requires AtReturn(home, s, b, r, t, op, a) && !ch.spurious && L.In(b.link, ch.e)
    ensures !Rests(r, t)
    ensures J.Step(home, r, t, ch) ==
            J.Both(if op.Remove? then b.link else L.Step(b.link, t, J.Told(op, a.res, ch.e)),
                   S.Step(home, r.slot, t, S.Go))
  {}

  // ---- what words and slots spell out ----

  ghost predicate HandsAt(hand: seq<int>, rows: seq<seq<int>>, threads: int) {
    forall a, i {:trigger rows[a][i]} :: InRow(rows, a, i) ==>
      0 <= rows[a][i] < |hand| && hand[rows[a][i]] == if a < threads then S.NOBODY else a - threads
  }

  /** The hands of the index: nobody has a listed element, and its owner a spare one.  Unfolded only
      where `HandsAre` calls for it. */
  ghost predicate Hands(hand: seq<int>, rows: seq<seq<int>>, threads: int) {
    forall u {:trigger Look(u)} :: Look(u) ==> HandsAt(hand, rows, threads)
  }

  lemma HandsAre(hand: seq<int>, rows: seq<seq<int>>, threads: int)
    ensures Hands(hand, rows, threads) <==> HandsAt(hand, rows, threads)
  {
    assert Look(0);
  }

  lemma HandsMoved(hand: seq<int>, rows: seq<seq<int>>, threads: int, a: int, i: int, b: int)
    requires Hands(hand, rows, threads) && Disjoint(rows) && InRow(rows, a, i) && 0 <= b < |rows|
    ensures 0 <= rows[a][i] < |hand|
    ensures Hands(hand[rows[a][i] := if b < threads then S.NOBODY else b - threads], Moved(rows, a, i, b), threads)
  {
    HandsAre(hand, rows, threads);
    assert 0 <= rows[a][i] < |hand|;
    var r, h := Moved(rows, a, i, b), hand[rows[a][i] := if b < threads then S.NOBODY else b - threads];
    HandsAre(h, r, threads);
    forall c, j | InRow(r, c, j)
      ensures 0 <= r[c][j] < |h| && h[r[c][j]] == if c < threads then S.NOBODY else c - threads
    {
      MovedFrom(rows, a, i, b, c, j);
      var o := LruRows.Origin(a, i, b, c, j);
      assert rows[o.0][o.1] == r[c][j];
    }
  }

  /** The memory of both systems, whatever the threads are doing. */
  ghost predicate Spelt(b: J.Both, c: Cache) {
    && L.Shaped(b.link) && |b.link.threads| == c.threads && |c.rows| == 2 * c.threads
    && Lists.Spells(b.link, c.rows) && c.g == Table(b.slot.slots, b.slot.elems)
    && |b.slot.elems| == |b.slot.hand| == |b.link.words| && Hands(b.slot.hand, c.rows, c.threads)
  }

  /** All threads are between calls, and words and slots spell out the cache c.  `Shows` says the same
      and is unfolded only where `ShowsIs` calls for it. */
  ghost predicate SpeltAtRest(b: J.Both, c: Cache) {
    && Spelt(b, c) && !b.slot.ended && |b.slot.pcs| == c.threads
    && forall t {:trigger b.slot.pcs[t]} :: 0 <= t < c.threads ==> Rests(b, t)
  }

  ghost predicate Shows(b: J.Both, c: Cache) {
    forall u {:trigger Look(u)} :: Look(u) ==> SpeltAtRest(b, c)
  }

  lemma ShowsIs(b: J.Both, c: Cache)
    ensures Shows(b, c) <==> SpeltAtRest(b, c)
  {
    assert Look(0);
  }

  /** From b to r only thread t has done anything; unfolded only where `BesideIs` calls for it. */
  ghost predicate Beside(b: J.Both, r: J.Both, t: int) {
    && J.Runs(b, t) && J.Runs(r, t) && L.SameShape(b.link, r.link)
    && forall u {:trigger Look(u)} :: Look(u) ==> Words.Alone(b.link, r.link, t) && OthersStay(b.slot, r.slot, t)
  }

  lemma BesideIs(b: J.Both, r: J.Both, t: int)
    requires J.Runs(b, t)
    ensures Beside(b, r, t) <==> J.Runs(r, t) && Words.Alone(b.link, r.link, t) && OthersStay(b.slot, r.slot, t)
  {
    assert Look(0);
  }

  lemma BesideAgain(b: J.Both, a: J.Both, r: J.Both, t: int)
    requires Beside(b, a, t) && Beside(a, r, t)
    ensures Beside(b, r, t)
  {
    BesideIs(b, a, t);
    BesideIs(a, r, t);
    BesideIs(b, r, t);
    Words.AloneAgain(b.link, a.link, r.link, t);
    forall u | 0 <= u < |b.slot.pcs| && u != t ensures r.slot.pcs[u] == b.slot.pcs[u] {
      assert a.slot.pcs[u] == b.slot.pcs[u];
    }
  }

  /** Thread t has done nothing but call the index, and words. */
  lemma BesideServed(b: J.Both, r: J.Both, t: int, op: Op, o: Applied)
    requires J.Runs(b, t) && J.Runs(r, t) && Words.Alone(b.link, r.link, t) && Served(b.slot, r.slot, t, op, o)
    ensures Beside(b, r, t)
  {
    AsideIs(b.slot, r.slot, t);
    BesideIs(b, r, t);
  }

  lemma BesideWords(b: J.Both, r: J.Both, t: int)
    requires J.Runs(b, t) && J.Runs(r, t) && Words.Alone(b.link, r.link, t) && r.slot == b.slot
    ensures Beside(b, r, t)
  {
    BesideIs(b, r, t);
  }

  lemma ShowsThen(b: J.Both, c: Cache, r: J.Both, t: int, c': Cache)
    requires Shows(b, c) && Beside(b, r, t) && Rests(r, t) && !r.slot.ended && c'.threads == c.threads && Spelt(r, c')
    ensures Shows(r, c')
  {
    BesideIs(b, r, t);
    ShowsIs(b, c);
    ShowsIs(r, c');
    forall u | 0 <= u < c'.threads ensures Rests(r, u) {
      assert b.slot.pcs[u].Idle? && Rests(b, u);
      if u != t { assert r.link.threads[u] == b.link.threads[u] && r.slot.pcs[u] == b.slot.pcs[u]; }
    }
  }

  // ---- the end of a call ----

  lemma WordsOn(home: int -> int, b: J.Both, t: int, ch: J.Choice, k: nat, link: L.State) returns (r: J.Both)
    requires J.Runs(b, t) && !b.slot.ended && b.slot.pcs[t].Idle? && !ch.spurious
    requires link == Words.On(b.link, t, k) && Words.Alone(b.link, link, t)
    ensures r == J.Both(link, b.slot) && Gets(home, b, t, ch, r) && Beside(b, r, t)
  {
    WordsGet(home, b, t, ch, k);
    r := J.Both(link, b.slot);
    BesideWords(b, r, t);
  }

  /** Thread t has left the index and goes on with its lists, which spell out the rows. */
  ghost predicate Outside(b: J.Both, t: int, rows: seq<seq<int>>, th: L.Thread) {
    && J.Runs(b, t) && !b.slot.ended && b.slot.pcs[t].Idle? && |rows| == 2 * |b.link.threads|
    && b.link.threads[t] == th && Lists.Spells(b.link, rows)
  }

  /** A hit on element e. */
  lemma HitTail(home: int -> int, b: J.Both, t: int, ch: J.Choice, rows: seq<seq<int>>, e: int, spare: int)
    returns (r: J.Both)
    requires Outside(b, t, rows, L.Thread(L.Unlink(L.LoadTarget(e)), spare)) && !ch.spurious
    requires Somewhere(rows, e) && 0 <= PlaceOf(rows, e).row < |b.link.threads|
    ensures Gets(home, b, t, ch, r) && Beside(b, r, t) && r.slot == b.slot
    ensures Outside(r, t, Touched(rows, t, e), Words.Done(spare))
  {
    var p := PlaceOf(rows, e);
    var k, link := Lists.MovesElement(b.link, t, rows, p.row, p.pos, e, spare);
    r := WordsOn(home, b, t, ch, k, link);
  }

  /** The spare element goes back. */
  lemma SpareTail(home: int -> int, b: J.Both, t: int, ch: J.Choice, rows: seq<seq<int>>, x: int, p: int,
                  rows': seq<seq<int>>)
    returns (r: J.Both)
    requires Outside(b, t, rows, L.Thread(L.Pool(L.Push(x)), L.END)) && !ch.spurious && p == |b.link.threads| + t
    requires rows' == rows[p := [x] + rows[p]]
    requires L.In(b.link, x) && C.Loose(rows, x)
    ensures Gets(home, b, t, ch, r) && Beside(b, r, t) && r.slot == b.slot && Rests(r, t)
    ensures Outside(r, t, rows', L.Thread(L.Pool(L.Idle), L.END))
  {
    var link := Lists.GivesSpare(b.link, t, rows, x);
    r := WordsOn(home, b, t, ch, 2, link);
  }

  // ---- get and set ----

  /** The thread asks for what the call says; what an insertion brings along is its own affair. */
  ghost predicate Asks(ch: J.Choice, call: Call) {
    && !ch.spurious
    && match call
       case CallGet(k) => ch.op == Get(k)
       case CallSet(k, v) => ch.op == Set(k, v)
       case CallInsert(k, v) => ch.op.Insert? && ch.op.k == k && ch.op.v == v
       case CallInsertOrSet(k, v) => ch.op.InsertOrSet? && ch.op.k == k && ch.op.v == v
  }

  /** What is known before the call: the memory spells out c, and if the key is stored, the element
      the choice names is the one with that key. */
  ghost predicate BeforeCall(home: int -> int, b: J.Both, t: int, ch: J.Choice, c: Cache, call: Call) {
    && Shows(b, c) && Kept(c, home) && 0 <= t < c.threads && Asks(ch, call) && L.In(b.link, ch.e)
    && (call.k in Keys(c.g) ==> ch.e == Found(c.g, call.k))
  }

  /** The same, unfolded only where `BeforeIs` calls for it. */
  ghost predicate Before(home: int -> int, b: J.Both, t: int, ch: J.Choice, c: Cache, call: Call) {
    forall u {:trigger Look(u)} :: Look(u) ==> BeforeCall(home, b, t, ch, c, call)
  }

  lemma BeforeIs(home: int -> int, b: J.Both, t: int, ch: J.Choice, c: Cache, call: Call)
    ensures Before(home, b, t, ch, c, call) <==> BeforeCall(home, b, t, ch, c, call)
  {
    assert Look(0);
  }

  /** The light part of it. */
  ghost predicate Starting(home: int -> int, b: J.Both, t: int, ch: J.Choice, c: Cache, call: Call) {
    && J.Runs(b, t) && Rests(b, t) && Outside(b, t, c.rows, L.Thread(L.Pool(L.Idle), L.END))
    && |b.link.threads| == c.threads && 0 <= t < c.threads && |c.rows| == 2 * c.threads && Fits(c, t)
    && Asks(ch, call) && L.In(b.link, ch.e) && Homes(home, |c.g.slots|) && Kept(c, home)
    && |b.slot.hand| == |b.link.words| == |c.g.elems|
    && (call.k in Keys(c.g) ==> ch.e == Found(c.g, call.k))
  }

  lemma BeforeRuns(home: int -> int, b: J.Both, t: int, ch: J.Choice, c: Cache, call: Call)
    requires Before(home, b, t, ch, c, call)
    ensures Starting(home, b, t, ch, c, call) && J.Runs(J.Step(home, b, t, ch), t)
  {
    BeforeIs(home, b, t, ch, c, call);
    ShowsIs(b, c);
    assert b.slot.pcs[t].Idle?;
    KeptIs(c, home);
    SpareFree(c, home, t);
  }

  /** The thread has its answer; words and rows are as before the call. */
  ghost predicate Back(b: J.Both, r: J.Both, t: int, op: Op, a: Applied, link: L.State) {
    J.Runs(b, t) && J.Runs(r, t) && r.link == link && Served(b.slot, r.slot, t, op, a)
  }

  /** The operation of the call can be called. */
  lemma BeforeCallable(home: int -> int, b: J.Both, t: int, ch: J.Choice, c: Cache, call: Call)
    requires Before(home, b, t, ch, c, call)
    ensures Fits(c, t) && Callable(home, b.slot, t, OpOf(c, t, call), c.g)
  {
    BeforeRuns(home, b, t, ch, c, call);
    BeforeIs(home, b, t, ch, c, call);
    ShowsIs(b, c);
    KeptTabled(c, home);
    SpareHand(b.slot.hand, c, t);
  }

  lemma KeptTabled(c: Cache, home: int -> int)
    requires Kept(c, home)
    ensures WellTabled(c.g) && Homes(home, |c.g.slots|)
  {
    KeptIs(c, home);
  }

  lemma SpareHand(hand: seq<int>, c: Cache, t: int)
    requires Hands(hand, c.rows, c.threads) && Fits(c, t)
    ensures 0 <= Spare(c, t) < |hand| && hand[Spare(c, t)] == t
  {
    HandsAre(hand, c.rows, c.threads);
    assert InRow(c.rows, c.threads + t, 0);
    assert c.rows[c.threads + t][0] == Spare(c, t);
  }

  lemma LookUpAnswered(home: int -> int, b: J.Both, t: int, ch: J.Choice, c: Cache, call: Call) returns (r: J.Both)
    requires Before(home, b, t, ch, c, call) && !Adds(call)
    ensures Starting(home, b, t, ch, c, call) && J.Runs(J.Step(home, b, t, ch), t)
    ensures Gets(home, J.Step(home, b, t, ch), t, ch, r)
    ensures var op := OpOf(c, t, call);
            var a := Apply(c.g, home, op);
            if TooLong(c.g, home, op) then r.slot.ended
            else Back(b, r, t, op, a, L.Step(b.link, t, J.Told(op, a.res, ch.e)))
  {
    BeforeRuns(home, b, t, ch, c, call);
    BeforeCallable(home, b, t, ch, c, call);
    var op := OpOf(c, t, call);
    var d := J.Both(b.link, S.Step(home, b.slot, t, S.Begin(op)));
    assert d == J.Step(home, b, t, ch);
    r := IndexCall(home, b.slot, d, t, ch, op, c.g);
    if !TooLong(c.g, home, op) {
      ReturnsTo(home, b.slot, d, r, t, ch, op, Apply(c.g, home, op));
      StepGets(home, r, t, ch);
      var e := J.Step(home, r, t, ch);
      GetsOn(home, d, t, ch, r, e);
      r := e;
    }
  }

  /** The cache after a call that adds no key, when the index has answered a. */
  ghost function Looked(c: Cache, t: int, call: Call, a: Applied): Cache
    requires 0 <= t < |c.rows|
  {
    c.(g := a.t, rows := if call.k in Keys(c.g) && !call.CallInsert? then Touched(c.rows, t, Found(c.g, call.k))
       else c.rows)
  }

  lemma StepLooked(c: Cache, home: int -> int, t: int, call: Call, a: Applied)
    requires Kept(c, home) && 0 <= t < c.threads && Fits(c, t) && Homes(home, |c.g.slots|)
    requires (call.k in Keys(c.g) || !Adds(call)) && a == Apply(c.g, home, OpOf(c, t, call))
    ensures Makes(c, home, t, call, Done(Looked(c, t, call, a), a.res)) && !Evicts(c, t, call)
    ensures call.k in Keys(c.g) ==> match call
                                    case CallGet(_) => a.res.Got?
                                    case CallSet(_, _) => a.res == Ok
                                    case _ => a.res == Refused
    ensures call.k !in Keys(c.g) ==> a.res == if call.CallGet? then NotFound else Refused
    ensures |a.t.elems| == |c.g.elems|
  {
    KeptIs(c, home);
    ProbingExact(home);
    ExactLawful(Probing(home), home);
    ExactAt(Probing(home), home, c.g, OpOf(c, t, call));
    FoundIs(c.g, home, call.k);
    LookedAnswers(c, home, t, call);
    MakesIs(c, home, t, call, Done(Looked(c, t, call, a), a.res));
  }

  lemma LookedAnswers(c: Cache, home: int -> int, t: int, call: Call)
    requires Good(c, home) && 0 <= t < c.threads && Fits(c, t) && Lawful(Probing(home), home)
    requires call.k in Keys(c.g) || !Adds(call)
    ensures Probing(home)(c.g, OpOf(c, t, call)).res == Answer(View(c.g), call)
    ensures call.k in Keys(c.g) <==> call.k in View(c.g)
  {
    if call.k in Keys(c.g) {
      SpareFree(c, home, t);
      HitMeets(c.g, Probing(home), home, OpOf(c, t, call), call);
    } else {
      LawfulAt(Probing(home), home, c.g, OpOf(c, t, call));
    }
  }

  /** The element of a stored key is on the list of some thread. */
  lemma FoundStands(c: Cache, home: int -> int, k: int)
    requires Kept(c, home) && k in Keys(c.g)
    ensures Somewhere(c.rows, Found(c.g, k)) && 0 <= PlaceOf(c.rows, Found(c.g, k)).row < c.threads
  {
    KeptIs(c, home);
    FoundIs(c.g, home, k);
    assert Listed(c, Found(c.g, k));
    PlaceOnList(c, home, Found(c.g, k));
  }

  lemma HandsTouched(hand: seq<int>, rows: seq<seq<int>>, threads: int, t: int, x: int)
    requires Hands(hand, rows, threads) && Disjoint(rows) && 0 <= t < threads && |rows| == 2 * threads
    requires Somewhere(rows, x) && 0 <= PlaceOf(rows, x).row < threads
    ensures Hands(hand, Touched(rows, t, x), threads)
  {
    var p := PlaceOf(rows, x);
    if Movable(rows[p.row], p.pos) {
      HandsMoved(hand, rows, threads, p.row, p.pos, t);
      HandsAre(hand, rows, threads);
      assert hand[rows[p.row][p.pos]] == S.NOBODY;
      assert hand[x := S.NOBODY] == hand;
    }
  }

  lemma HandsFound(hand: seq<int>, c: Cache, home: int -> int, t: int, k: int)
    requires Hands(hand, c.rows, c.threads) && Kept(c, home) && 0 <= t < c.threads && k in Keys(c.g)
    requires |c.rows| == 2 * c.threads
    ensures Hands(hand, Touched(c.rows, t, Found(c.g, k)), c.threads)
  {
    KeptIs(c, home);
    FoundStands(c, home, k);
    HandsTouched(hand, c.rows, c.threads, t, Found(c.g, k));
  }

  /** The result of a whole call that has not overrun. */
  ghost predicate Over(b: J.Both, r: J.Both, t: int, c': Cache, told: seq<S.Event>) {
    Shows(r, c') && r.slot.trace == b.slot.trace + told
  }

  /** Once the thread is back outside with the right rows, words and slots show the right cache. */
  lemma ShowsAfter(home: int -> int, b: J.Both, r: J.Both, t: int, ch: J.Choice, c: Cache, call: Call, c': Cache)
    requires Before(home, b, t, ch, c, call) && Beside(b, r, t)
    requires |c'.g.elems| == |c.g.elems| && c'.threads == c.threads && 0 <= t < c.threads
    requires Outside(r, t, c'.rows, L.Thread(L.Pool(L.Idle), L.END)) && Hands(r.slot.hand, c'.rows, c.threads)
    requires |r.slot.hand| == |b.slot.hand| && c'.g == Table(r.slot.slots, r.slot.elems)
    ensures Shows(r, c')
  {
    BeforeIs(home, b, t, ch, c, call);
    ShowsIs(b, c);
    ShowsThen(b, c, r, t, c');
  }

  /** With the rows of before. */
  lemma ShowsKept(home: int -> int, b: J.Both, r: J.Both, t: int, ch: J.Choice, c: Cache, call: Call, g: Table)
    requires Before(home, b, t, ch, c, call) && Beside(b, r, t) && |g.elems| == |c.g.elems|
    requires 0 <= t < c.threads && g == Table(r.slot.slots, r.slot.elems) && r.slot.hand == b.slot.hand
    requires Outside(r, t, c.rows, L.Thread(L.Pool(L.Idle), L.END))
    ensures Shows(r, c.(g := g))
  {
    BeforeIs(home, b, t, ch, c, call);
    ShowsIs(b, c);
    ShowsAfter(home, b, r, t, ch, c, call, c.(g := g));
  }

  /** With the element found moved as in a hit. */
  lemma ShowsMoved(home: int -> int, b: J.Both, r: J.Both, t: int, ch: J.Choice, c: Cache, call: Call, g: Table)
    requires Before(home, b, t, ch, c, call) && Beside(b, r, t) && |g.elems| == |c.g.elems|
    requires 0 <= t < c.threads && g == Table(r.slot.slots, r.slot.elems) && r.slot.hand == b.slot.hand
    requires |c.rows| == 2 * c.threads && call.k in Keys(c.g) && ch.e == Found(c.g, call.k)
    requires Outside(r, t, Touched(c.rows, t, ch.e), L.Thread(L.Pool(L.Idle), L.END))
    ensures Shows(r, c.(g := g, rows := Touched(c.rows, t, ch.e)))
  {
    BeforeIs(home, b, t, ch, c, call);
    ShowsIs(b, c);
    HandsFound(b.slot.hand, c, home, t, call.k);
    ShowsAfter(home, b, r, t, ch, c, call, c.(g := g, rows := Touched(c.rows, t, ch.e)));
  }

  lemma LookUpMisses(home: int -> int, b: J.Both, a: J.Both, t: int, ch: J.Choice, c: Cache, call: Call, op: Op,
                     o: Applied)
    requires Before(home, b, t, ch, c, call) && Starting(home, b, t, ch, c, call) && (op.Get? || op.Set?)
    requires Back(b, a, t, op, o, L.Step(b.link, t, J.Told(op, o.res, ch.e)))
    requires o.res == (if op.Get? then NotFound else Refused) && |o.t.elems| == |c.g.elems|
    ensures Shows(a, c.(g := o.t))
  {
    assert a.link == b.link;
    BesideServed(b, a, t, op, o);
    ShowsKept(home, b, a, t, ch, c, call, o.t);
  }

  lemma LookUpHits(home: int -> int, b: J.Both, a: J.Both, t: int, ch: J.Choice, c: Cache, call: Call, op: Op,
                   o: Applied)
    returns (r: J.Both)
    requires Before(home, b, t, ch, c, call) && Starting(home, b, t, ch, c, call) && call.k in Keys(c.g)
    requires (op.Get? && o.res.Got?) || (op.Set? && o.res == Ok)
    requires Back(b, a, t, op, o, L.Step(b.link, t, J.Told(op, o.res, ch.e))) && |o.t.elems| == |c.g.elems|
    ensures Gets(home, a, t, ch, r) && r.slot == a.slot
    ensures Shows(r, c.(g := o.t, rows := Touched(c.rows, t, ch.e)))
  {
    FoundStands(c, home, call.k);
    HitStarts(b, a, t, c.rows, ch.e, op, o);
    r := HitTail(home, a, t, ch, c.rows, ch.e, L.END);
    BesideAgain(b, a, r, t);
    ShowsMoved(home, b, r, t, ch, c, call, o.t);
  }

  lemma HitStarts(b: J.Both, a: J.Both, t: int, rows: seq<seq<int>>, e: int, op: Op, o: Applied)
    requires Outside(b, t, rows, L.Thread(L.Pool(L.Idle), L.END)) && L.In(b.link, e)
    requires (op.Get? && o.res.Got?) || (op.Set? && o.res == Ok)
    requires Back(b, a, t, op, o, L.Step(b.link, t, J.Told(op, o.res, e)))
    ensures Outside(a, t, rows, L.Thread(L.Unlink(L.LoadTarget(e)), L.END)) && Beside(b, a, t)
  {
    var link := L.Goto(b.link, t, L.Unlink(L.LoadTarget(e)));
    assert a.link == link;
    assert Lists.AllEnds(link) == Lists.AllEnds(b.link);
    BesideServed(b, a, t, op, o);
  }

  // ---- insert and insertOrSet ----

  /** The rows while the first spare element of t is in its hands. */
  function Popped(c: Cache, t: int): seq<seq<int>>
    requires Pool(c, t) != []
  {
    c.rows[c.threads + t := Cut(c.rows[c.threads + t], 0)]
  }

  /** Thread t has taken its spare element and is about to call the index. */
  ghost predicate Armed(b: J.Both, a: J.Both, t: int, c: Cache) {
    && Fits(c, t) && Beside(b, a, t) && a.slot == b.slot && |b.link.threads| == c.threads
    && var e := Spare(c, t);
    && Outside(a, t, Popped(c, t), L.Thread(L.Pool(L.Probe), e))
    && C.Loose(Popped(c, t), e) && L.In(a.link, e) && e != L.END && L.In(a.link, e)
  }

  lemma SpareTaken(home: int -> int, b: J.Both, t: int, ch: J.Choice, c: Cache, call: Call) returns (a: J.Both)
    requires Before(home, b, t, ch, c, call) && Adds(call)
    ensures Starting(home, b, t, ch, c, call) && J.Runs(J.Step(home, b, t, ch), t)
    ensures Gets(home, J.Step(home, b, t, ch), t, ch, a)
    ensures Armed(b, a, t, c)
  {
    BeforeRuns(home, b, t, ch, c, call);
    a := SparePopped(home, b, t, ch, c.rows, Spare(c, t));
  }

  lemma SparePopped(home: int -> int, b: J.Both, t: int, ch: J.Choice, rows: seq<seq<int>>, e: int) returns (a: J.Both)
    requires Outside(b, t, rows, L.Thread(L.Pool(L.Idle), L.END)) && !ch.spurious && S.IsInsert(ch.op)
    requires rows[|b.link.threads| + t] != [] && e == rows[|b.link.threads| + t][0]
    ensures J.Runs(J.Step(home, b, t, ch), t) && Gets(home, J.Step(home, b, t, ch), t, ch, a)
    ensures Beside(b, a, t) && a.slot == b.slot
    ensures var p := |b.link.threads| + t;
            var rows' := rows[p := Cut(rows[p], 0)];
            && Outside(a, t, rows', L.Thread(L.Pool(L.Probe), e)) && C.Loose(rows', e) && L.In(a.link, e) && e != L.END
  {
    var link := Lists.TakesSpare(b.link, t, rows, e);
    var d := J.Both(L.Step(b.link, t, L.StartInsert), b.slot);
    PopStarts(home, b, t, ch);
    WordsGet(home, d, t, ch, 2);
    a := J.Both(link, b.slot);
    BesideWords(b, a, t);
  }

  lemma PopStarts(home: int -> int, b: J.Both, t: int, ch: J.Choice)
    requires J.Runs(b, t) && Rests(b, t) && !b.slot.ended && S.IsInsert(ch.op)
    ensures J.Step(home, b, t, ch) == J.Both(L.Step(b.link, t, L.StartInsert), b.slot)
  {}

  lemma ProbeStep(home: int -> int, a: J.Both, t: int, ch: J.Choice, e: int)
    requires J.Runs(a, t) && !a.slot.ended && a.slot.pcs[t].Idle? && a.link.threads[t] == L.Thread(L.Pool(L.Probe), e)
    requires S.IsInsert(ch.op)
    ensures J.Step(home, a, t, ch) == J.Both(a.link, S.Step(home, a.slot, t, S.Begin(J.Bring(ch.op, e))))
  {}

  lemma AddAnswered(home: int -> int, b: J.Both, a: J.Both, t: int, ch: J.Choice, c: Cache, call: Call)
    returns (r: J.Both)
    requires Before(home, b, t, ch, c, call) && Adds(call) && Starting(home, b, t, ch, c, call) && Armed(b, a, t, c)
    ensures Gets(home, a, t, ch, r)
    ensures var op := OpOf(c, t, call);
            var o := Apply(c.g, home, op);
            if TooLong(c.g, home, op) then r.slot.ended
            else Back(b, r, t, op, o, L.Step(a.link, t, J.Told(op, o.res, ch.e)))
  {
    var op := OpOf(c, t, call);
    BeforeCallable(home, b, t, ch, c, call);
    BeforeRuns(home, b, t, ch, c, call);
    ProbeStep(home, a, t, ch, Spare(c, t));
    assert J.Bring(ch.op, Spare(c, t)) == op;
    var d := J.Both(a.link, S.Step(home, b.slot, t, S.Begin(op)));
    StepGets(home, a, t, ch);
    r := IndexCall(home, b.slot, d, t, ch, op, c.g);
    GetsOn(home, a, t, ch, d, r);
    if !TooLong(c.g, home, op) {
      ReturnsTo(home, b.slot, d, r, t, ch, op, Apply(c.g, home, op));
      StepGets(home, r, t, ch);
      var e := J.Step(home, r, t, ch);
      GetsOn(home, a, t, ch, r, e);
      r := e;
    }
  }

  /** Thread t is back from the index with rows and goes on as th. */
  ghost predicate Sent(b: J.Both, d: J.Both, t: int, rows: seq<seq<int>>, op: Op, o: Applied, th: L.Thread) {
    Beside(b, d, t) && Served(b.slot, d.slot, t, op, o) && Outside(d, t, rows, th)
  }

  /** First words only, then the index. */
  lemma BesideBoth(b: J.Both, a: J.Both, d: J.Both, t: int, op: Op, o: Applied)
    requires Beside(b, a, t) && a.slot == b.slot && J.Runs(d, t) && Words.Alone(a.link, d.link, t)
    requires Served(b.slot, d.slot, t, op, o)
    ensures Beside(b, d, t)
  {
    BesideServed(a, d, t, op, o);
    BesideAgain(b, a, d, t);
  }

  lemma SentDuplicate(b: J.Both, a: J.Both, d: J.Both, t: int, rows: seq<seq<int>>, e: int, op: Op, o: Applied, x: int)
    requires Beside(b, a, t) && a.slot == b.slot && Outside(a, t, rows, L.Thread(L.Pool(L.Probe), e))
    requires Back(b, d, t, op, o, L.Step(a.link, t, J.Told(op, o.res, x))) && op.Insert? && o.res == Refused
    ensures Sent(b, d, t, rows, op, o, L.Thread(L.Pool(L.Push(e)), L.END))
  {
    var link := a.link.(threads := a.link.threads[t := L.Thread(L.Pool(L.Push(e)), L.END)]);
    assert d.link == link;
    assert Lists.AllEnds(link) == Lists.AllEnds(a.link);
    BesideBoth(b, a, d, t, op, o);
  }

  lemma SentHit(b: J.Both, a: J.Both, d: J.Both, t: int, rows: seq<seq<int>>, e: int, op: Op, o: Applied, x: int)
    requires Beside(b, a, t) && a.slot == b.slot && Outside(a, t, rows, L.Thread(L.Pool(L.Probe), e)) && L.In(a.link, x)
    requires Back(b, d, t, op, o, L.Step(a.link, t, J.Told(op, o.res, x))) && op.InsertOrSet? && o.res == Refused
    ensures Sent(b, d, t, rows, op, o, L.Thread(L.Unlink(L.LoadTarget(x)), e))
  {
    var link := L.Goto(a.link, t, L.Unlink(L.LoadTarget(x)));
    assert d.link == link;
    assert Lists.AllEnds(link) == Lists.AllEnds(a.link);
    BesideBoth(b, a, d, t, op, o);
  }

  lemma SentNew(b: J.Both, a: J.Both, d: J.Both, t: int, rows: seq<seq<int>>, e: int, op: Op, o: Applied, x: int)
    requires Beside(b, a, t) && a.slot == b.slot && Outside(a, t, rows, L.Thread(L.Pool(L.Probe), e))
    requires Back(b, d, t, op, o, L.Step(a.link, t, J.Told(op, o.res, x))) && S.IsInsert(op) && o.res == Ok
    ensures Sent(b, d, t, rows, op, o, L.Thread(L.Link(e, true, L.LinkStore), L.END))
  {
    var link := a.link.(threads := a.link.threads[t := L.Thread(L.Link(e, true, L.LinkStore), L.END)]);
    assert d.link == link;
    assert Lists.AllEnds(link) == Lists.AllEnds(a.link);
    BesideBoth(b, a, d, t, op, o);
  }

  /** insert finds its key: the spare element goes back. */
  lemma AddRefused(home: int -> int, b: J.Both, d: J.Both, t: int, ch: J.Choice, c: Cache, call: Call,
                   op: Op, o: Applied)
    returns (r: J.Both)
    requires Before(home, b, t, ch, c, call) && Starting(home, b, t, ch, c, call) && op.Insert? && o.res == Refused
    requires Sent(b, d, t, Popped(c, t), op, o, L.Thread(L.Pool(L.Push(Spare(c, t))), L.END))
    requires C.Loose(Popped(c, t), Spare(c, t)) && L.In(b.link, Spare(c, t)) && |o.t.elems| == |c.g.elems|
    ensures Gets(home, d, t, ch, r) && r.slot == d.slot && Shows(r, c.(g := o.t))
  {
    r := RefuseTail(home, d, t, ch, c);
    BesideAgain(b, d, r, t);
    ShowsKept(home, b, r, t, ch, c, call, o.t);
  }

  lemma RefuseTail(home: int -> int, d: J.Both, t: int, ch: J.Choice, c: Cache) returns (r: J.Both)
    requires Fits(c, t) && !ch.spurious && |d.link.threads| == c.threads
    requires Outside(d, t, Popped(c, t), L.Thread(L.Pool(L.Push(Spare(c, t))), L.END))
    requires C.Loose(Popped(c, t), Spare(c, t)) && L.In(d.link, Spare(c, t))
    ensures Gets(home, d, t, ch, r) && Beside(d, r, t) && r.slot == d.slot
    ensures Outside(r, t, c.rows, L.Thread(L.Pool(L.Idle), L.END))
  {
    PutBack(c.rows, c.threads + t);
    r := SpareTail(home, d, t, ch, Popped(c, t), Spare(c, t), c.threads + t, c.rows);
  }

  /** insertOrSet finds its key: the element is moved as in a hit, then the spare one goes back. */
  lemma AddOverwrites(home: int -> int, b: J.Both, d: J.Both, t: int, ch: J.Choice, c: Cache, call: Call,
                      op: Op, o: Applied)
    returns (r: J.Both)
    requires Before(home, b, t, ch, c, call) && Starting(home, b, t, ch, c, call) && op.InsertOrSet? && o.res == Refused
    requires Sent(b, d, t, Popped(c, t), op, o, L.Thread(L.Unlink(L.LoadTarget(ch.e)), Spare(c, t)))
    requires L.In(b.link, Spare(c, t)) && Spare(c, t) != L.END && |o.t.elems| == |c.g.elems| && call.k in Keys(c.g)
    ensures Gets(home, d, t, ch, r) && r.slot == d.slot
    ensures Shows(r, c.(g := o.t, rows := Touched(c.rows, t, ch.e)))
  {
    r := OverwriteTail(home, d, t, ch, c, call.k);
    BesideAgain(b, d, r, t);
    ShowsMoved(home, b, r, t, ch, c, call, o.t);
  }

  lemma OverwriteTail(home: int -> int, d: J.Both, t: int, ch: J.Choice, c: Cache, k: int) returns (r: J.Both)
    requires Kept(c, home) && Fits(c, t) && k in Keys(c.g) && ch.e == Found(c.g, k) && !ch.spurious
    requires Outside(d, t, Popped(c, t), L.Thread(L.Unlink(L.LoadTarget(ch.e)), Spare(c, t)))
    requires L.In(d.link, Spare(c, t)) && Spare(c, t) != L.END && |d.link.threads| == c.threads
    ensures Gets(home, d, t, ch, r) && Beside(d, r, t) && r.slot == d.slot
    ensures Outside(r, t, Touched(c.rows, t, ch.e), L.Thread(L.Pool(L.Idle), L.END))
  {
    HitWhilePopped(c, home, t, k, Popped(c, t));
    r := MoveAndGive(home, d, t, ch, Popped(c, t), ch.e, Spare(c, t), c.threads + t, Touched(c.rows, t, ch.e));
  }

  lemma MoveAndGive(home: int -> int, b: J.Both, t: int, ch: J.Choice, rows: seq<seq<int>>, x: int, e: int, p: int,
                    rows': seq<seq<int>>)
    returns (r: J.Both)
    requires Outside(b, t, rows, L.Thread(L.Unlink(L.LoadTarget(x)), e)) && !ch.spurious && e != L.END
    requires Somewhere(rows, x) && 0 <= PlaceOf(rows, x).row < |b.link.threads| && p == |b.link.threads| + t
    requires L.In(b.link, e) && C.Loose(Touched(rows, t, x), e)
    requires var m := Touched(rows, t, x); rows' == m[p := [e] + m[p]]
    ensures Gets(home, b, t, ch, r) && Beside(b, r, t) && r.slot == b.slot && Rests(r, t)
    ensures Outside(r, t, rows', L.Thread(L.Pool(L.Idle), L.END))
  {
    var d := HitTail(home, b, t, ch, rows, x, e);
    r := GivesAfter(home, b, d, t, ch, Touched(rows, t, x), e, p, rows');
  }

  lemma GivesAfter(home: int -> int, b: J.Both, d: J.Both, t: int, ch: J.Choice, rows: seq<seq<int>>, e: int, p: int,
                   rows': seq<seq<int>>)
    returns (r: J.Both)
    requires J.Runs(b, t) && Gets(home, b, t, ch, d) && Beside(b, d, t) && !ch.spurious && p == |b.link.threads| + t
    requires Outside(d, t, rows, L.Thread(L.Pool(L.Push(e)), L.END)) && L.In(d.link, e) && C.Loose(rows, e)
    requires rows' == rows[p := [e] + rows[p]]
    ensures Gets(home, b, t, ch, r) && Beside(b, r, t) && r.slot == d.slot && Rests(r, t)
    ensures Outside(r, t, rows', L.Thread(L.Pool(L.Idle), L.END))
  {
    r := SpareTail(home, d, t, ch, rows, e, p, rows');
    GetsOn(home, b, t, ch, d, r);
    BesideAgain(b, d, r, t);
  }

  // ---- a new key ----

  /** linkHead of the new element, up to the look at the free list. */
  lemma NewLinked(home: int -> int, d: J.Both, t: int, ch: J.Choice, c: Cache) returns (r: J.Both)
    requires Fits(c, t) && !ch.spurious && |d.link.threads| == c.threads
    requires Outside(d, t, Popped(c, t), L.Thread(L.Link(Spare(c, t), true, L.LinkStore), L.END))
    requires C.Loose(Popped(c, t), Spare(c, t)) && L.In(d.link, Spare(c, t))
    ensures Gets(home, d, t, ch, r) && Beside(d, r, t) && r.slot == d.slot
    ensures Outside(r, t, Moved(c.rows, c.threads + t, 0, t), L.Thread(L.Pool(L.CheckFree), L.END))
  {
    var k, link := Lists.PutsAtHead(d.link, t, Popped(c, t), Spare(c, t), true, L.END);
    r := WordsOn(home, d, t, ch, k, link);
  }

  /** There are spare elements left: the call is over. */
  lemma NewRests(home: int -> int, d: J.Both, t: int, ch: J.Choice, rows: seq<seq<int>>) returns (r: J.Both)
    requires Outside(d, t, rows, L.Thread(L.Pool(L.CheckFree), L.END)) && !ch.spurious
    requires rows[|d.link.threads| + t] != []
    ensures Gets(home, d, t, ch, r) && Beside(d, r, t) && r.slot == d.slot && Rests(r, t)
    ensures Outside(r, t, rows, L.Thread(L.Pool(L.Idle), L.END))
  {
    Lists.FreeLeft(d.link, t, rows);
    Words.FreeFound(d.link, t, L.END);
    var link := Words.On(d.link, t, 1);
    r := WordsOn(home, d, t, ch, 1, link);
    Lists.SpellsSame(d.link, link, t, rows, L.Thread(L.Pool(L.Idle), L.END), d.link.words);
  }

  /** The tail x has come off the list of t, and its removal from the index has been called. */
  ghost predicate Detached(home: int -> int, b: J.Both, d: J.Both, t: int, rows: seq<seq<int>>, x: int) {
    && J.Runs(b, t) && J.Runs(d, t) && Words.Alone(b.link, d.link, t) && |rows| == 2 * |d.link.threads|
    && d.slot == S.Step(home, b.slot, t, S.Begin(Remove(x)))
    && d.link.threads[t] == L.Thread(L.Pool(L.Push(x)), L.END)
    && Lists.Spells(d.link, rows) && C.Loose(rows, x) && L.In(d.link, x)
  }

  lemma DetachStep(home: int -> int, a: J.Both, t: int, ch: J.Choice, x: int, link: L.State)
    requires J.Runs(a, t) && !a.slot.ended && a.slot.pcs[t].Idle?
    requires a.link.threads[t] == L.Thread(L.Trim(L.TailDetach(x)), L.END) && link == L.Step(a.link, t, L.Go)
    ensures J.Step(home, a, t, ch) == J.Both(link, S.Step(home, a.slot, t, S.Begin(Remove(x)))) && !Rests(a, t)
  {}

  lemma NewTrims(home: int -> int, b: J.Both, t: int, ch: J.Choice, rows: seq<seq<int>>, x: int) returns (d: J.Both)
    requires Outside(b, t, rows, L.Thread(L.Pool(L.CheckFree), L.END)) && !ch.spurious
    requires rows[|b.link.threads| + t] == [] && rows[t] != [] && x == rows[t][|rows[t]| - 1]
    ensures Gets(home, b, t, ch, d) && Detached(home, b, d, t, rows[t := Cut(rows[t], |rows[t]| - 1)], x)
  {
    var k, m, link := Lists.TakesTail(b.link, t, rows, L.END, x);
    WordsGet(home, b, t, ch, k);
    var a := J.Both(m, b.slot);
    DetachStep(home, a, t, ch, x, link);
    StepGets(home, a, t, ch);
    d := J.Step(home, a, t, ch);
    GetsOn(home, b, t, ch, a, d);
  }

  /** The tail is out of the index and is about to go to the free list. */
  ghost predicate Dropped(b: J.Both, d: J.Both, t: int, rows: seq<seq<int>>, x: int, o: Applied) {
    && Beside(b, d, t) && Served(b.slot, d.slot, t, Remove(x), o) && L.In(d.link, x) && C.Loose(rows, x)
    && Outside(d, t, rows, L.Thread(L.Pool(L.Push(x)), L.END))
  }

  lemma TailDropped(home: int -> int, b: J.Both, d: J.Both, t: int, ch: J.Choice, rows: seq<seq<int>>, x: int, g: Table,
                    o: Applied)
    returns (r: J.Both)
    requires Detached(home, b, d, t, rows, x) && Callable(home, b.slot, t, Remove(x), g)
    requires Meant(g, home, Remove(x), o) && o.res != Refused && !ch.spurious && L.In(d.link, ch.e)
    ensures J.Runs(d, t) && Gets(home, d, t, ch, r)
    ensures if TooLong(g, home, Remove(x)) then r.slot.ended else Dropped(b, r, t, rows, x, o)
  {
    MeantIs(g, home, Remove(x), o);
    r := IndexCall(home, b.slot, d, t, ch, Remove(x), g);
    if !TooLong(g, home, Remove(x)) {
      ReturnsTo(home, b.slot, d, r, t, ch, Remove(x), o);
      StepGets(home, r, t, ch);
      var e := J.Step(home, r, t, ch);
      GetsOn(home, d, t, ch, r, e);
      BesideServed(b, e, t, Remove(x), o);
      r := e;
    }
  }

  /** The removal of the tail from the index, and its way to the free list. */
  lemma TailRemoved(home: int -> int, b: J.Both, d: J.Both, t: int, ch: J.Choice, rows: seq<seq<int>>, x: int, g: Table,
                    o: Applied, p: int, rows': seq<seq<int>>)
    returns (r: J.Both)
    requires Detached(home, b, d, t, rows, x) && Callable(home, b.slot, t, Remove(x), g)
    requires Meant(g, home, Remove(x), o) && o.res != Refused && !ch.spurious && L.In(d.link, ch.e)
    requires p == |d.link.threads| + t && rows' == rows[p := [x] + rows[p]]
    ensures J.Runs(d, t) && Gets(home, d, t, ch, r)
    ensures if TooLong(g, home, Remove(x)) then r.slot.ended
            else
              && Beside(b, r, t) && Served(b.slot, r.slot, t, Remove(x), o)
              && Outside(r, t, rows', L.Thread(L.Pool(L.Idle), L.END))
  {
    var e := TailDropped(home, b, d, t, ch, rows, x, g, o);
    r := e;
    if !TooLong(g, home, Remove(x)) {
      r := SpareTail(home, e, t, ch, rows, x, p, rows');
      GetsOn(home, d, t, ch, e, r);
      BesideAgain(b, e, r, t);
    }
  }

  // ---- what growing means for the cache ----

  /** The cache once the new element is linked and indexed, o being what the index answered. */
  function Linked(c: Cache, t: int, o: Applied): Cache
    requires Fits(c, t)
  {
    Cache(o.t, c.threads, c.owned, Moved(c.rows, c.threads + t, 0, t))
  }

  /** And once its tail x has left index and list. */
  function Trimmed(c: Cache, t: int, o: Applied): Cache
    requires 0 <= t < c.threads && |c.rows| == 2 * c.threads && c.rows[t] != []
  {
    Cache(o.t, c.threads, c.owned, Moved(c.rows, t, |c.rows[t]| - 1, c.threads + t))
  }

  /** c1 is the cache once the new element is linked and indexed, and d what the whole call makes of
      c; unfolded only where `AddingIs` and `MakesIs` call for it. */
  ghost predicate Adding(c: Cache, home: int -> int, t: int, op: Op, c1: Cache) {
    forall u {:trigger Look(u)} :: Look(u) ==> Fits(c, t) && c1 == Added(c, Probing(home), t, op)
  }

  lemma AddingIs(c: Cache, home: int -> int, t: int, op: Op, c1: Cache)
    ensures Adding(c, home, t, op, c1) <==> Fits(c, t) && c1 == Added(c, Probing(home), t, op)
  {
    assert Look(0);
  }

  ghost predicate Makes(c: Cache, home: int -> int, t: int, call: Call, d: Done) {
    forall u {:trigger Look(u)} :: Look(u) ==> Fits(c, t) && Step(c, Probing(home), t, call) == d
  }

  lemma MakesIs(c: Cache, home: int -> int, t: int, call: Call, d: Done)
    ensures Makes(c, home, t, call, d) <==> Fits(c, t) && Step(c, Probing(home), t, call) == d
  {
    assert Look(0);
  }

  lemma GrowsBy(c: Cache, home: int -> int, t: int, call: Call, o: Applied) returns (c1: Cache)
    requires Kept(c, home) && Fits(c, t) && Adds(call) && call.k !in Keys(c.g) && Homes(home, |c.g.slots|)
    requires Meant(c.g, home, OpOf(c, t, call), o)
    ensures c1 == Linked(c, t, o) && o.res == Ok && |o.t.elems| == |c.g.elems| && Almost(c1, home)
    ensures c1.rows[t] != [] && (Pool(c1, t) == [] <==> Evicts(c, t, call)) && |o.t.slots| == |c.g.slots|
    ensures Adding(c, home, t, OpOf(c, t, call), c1)
  {
    MeantIs(c.g, home, OpOf(c, t, call), o);
    ProbingExact(home);
    AddedIs(c, Probing(home), home, t, call);
    AddedFacts(c, Probing(home), home, t, call);
    InsertAnswers(c, home, t, call);
    c1 := Linked(c, t, o);
    AddingIs(c, home, t, OpOf(c, t, call), c1);
  }

  lemma GrownOnly(c: Cache, home: int -> int, t: int, call: Call, c1: Cache)
    requires Kept(c, home) && Fits(c, t) && Adds(call) && call.k !in Keys(c.g)
    requires Adding(c, home, t, OpOf(c, t, call), c1) && Pool(c1, t) != []
    ensures Makes(c, home, t, call, Done(c1, Ok))
  {
    AddingIs(c, home, t, OpOf(c, t, call), c1);
    MakesIs(c, home, t, call, Done(c1, Ok));
    ProbingExact(home);
    StepAdds(c, Probing(home), home, t, call);
  }

  lemma InsertAnswers(c: Cache, home: int -> int, t: int, call: Call)
    requires Kept(c, home) && Fits(c, t) && Adds(call) && call.k !in Keys(c.g) && Homes(home, |c.g.slots|)
    ensures Apply(c.g, home, OpOf(c, t, call)).res == Ok
  {
    KeptIs(c, home);
    ProbingExact(home);
    ExactLawful(Probing(home), home);
    AddedNearly(c, Probing(home), home, t, call);
    ExactAt(Probing(home), home, c.g, OpOf(c, t, call));
  }

  lemma ShrinksBy(c: Cache, home: int -> int, t: int, call: Call, c1: Cache, x: int) returns (o: Applied)
    requires Kept(c, home) && Fits(c, t) && Adds(call) && call.k !in Keys(c.g) && Homes(home, |c.g.slots|)
    requires Adding(c, home, t, OpOf(c, t, call), c1) && Almost(c1, home) && Evicts(c, t, call)
    requires |c1.rows| == 2 * c1.threads && 0 <= t < c1.threads && c1.rows[t] != []
    requires |c1.g.slots| == |c.g.slots| && x == Tail(c1, t) && Pool(c1, t) == []
    ensures Meant(c1.g, home, Remove(x), o)
    ensures o.res == Ok && |o.t.elems| == |c1.g.elems| && 0 <= x < |c1.g.elems| && WellTabled(c1.g)
    ensures Makes(c, home, t, call, Done(Trimmed(c1, t, o), Ok))
  {
    AddingIs(c, home, t, OpOf(c, t, call), c1);
    o := Apply(c1.g, home, Remove(x));
    MakesIs(c, home, t, call, Done(Trimmed(c1, t, o), Ok));
    MeantIs(c1.g, home, Remove(x), o);
    ProbingExact(home);
    StepAdds(c, Probing(home), home, t, call);
    EvictedIs(c1, Probing(home), home, t);
    TailAnswers(c1, home, t);
  }

  lemma TailAnswers(c1: Cache, home: int -> int, t: int)
    requires Almost(c1, home) && 0 <= t < |c1.rows| && t < c1.threads && c1.rows[t] != [] && Homes(home, |c1.g.slots|)
    ensures 0 <= Tail(c1, t) < |c1.g.elems| && Apply(c1.g, home, Remove(Tail(c1, t))).res == Ok && WellTabled(c1.g)
  {
    AlmostIs(c1, home);
    ProbingExact(home);
    ExactLawful(Probing(home), home);
    TailIndexed(c1, home, t);
    LawfulRemove(c1.g, Probing(home), home, Tail(c1, t));
    ExactAt(Probing(home), home, c1.g, Remove(Tail(c1, t)));
  }

  lemma HandsLinked(hand: seq<int>, c: Cache, home: int -> int, t: int, hand': seq<int>, rows': seq<seq<int>>)
    requires Kept(c, home) && Fits(c, t) && Hands(hand, c.rows, c.threads)
    requires 0 <= Spare(c, t) < |hand| && hand' == hand[Spare(c, t) := S.NOBODY]
    requires rows' == Moved(c.rows, c.threads + t, 0, t)
    ensures Hands(hand', rows', c.threads)
  {
    KeptIs(c, home);
    HandsMoved(hand, c.rows, c.threads, c.threads + t, 0, t);
  }

  lemma HandsTrimmed(hand: seq<int>, c1: Cache, home: int -> int, t: int, x: int, rows': seq<seq<int>>)
    requires Almost(c1, home) && 0 <= t < c1.threads && |c1.rows| == 2 * c1.threads && c1.rows[t] != []
    requires Hands(hand, c1.rows, c1.threads) && x == Tail(c1, t)
    requires rows' == Moved(c1.rows, t, |c1.rows[t]| - 1, c1.threads + t)
    ensures 0 <= x < |hand| && hand[x] == S.NOBODY && Hands(hand[x := t], rows', c1.threads)
  {
    AlmostIs(c1, home);
    HandsMoved(hand, c1.rows, c1.threads, t, |c1.rows[t]| - 1, c1.threads + t);
    HandsAre(hand, c1.rows, c1.threads);
    assert InRow(c1.rows, t, |c1.rows[t]| - 1);
    assert c1.rows[t][|c1.rows[t]| - 1] == Tail(c1, t);
  }

  // ---- the whole call ----

  /** The events of the call of thread t, in order: its own operation and, if it evicts, the removal
      of the element it evicts. */
  ghost function Story(c: Cache, home: int -> int, t: int, call: Call): seq<S.Event>
    requires Fits(c, t)
  {
    Told(t, OpOf(c, t, call), Step(c, Probing(home), t, call).res)
    + if Evicts(c, t, call) then Told(t, Remove(Tail(Added(c, Probing(home), t, OpOf(c, t, call)), t)), Ok) else []
  }

  /** The new element is linked and indexed, and the thread looks at its free list. */
  ghost predicate Grew(b: J.Both, m: J.Both, t: int, op: Op, o: Applied, rows: seq<seq<int>>) {
    && Beside(b, m, t) && Served(b.slot, m.slot, t, op, o) && o.res == Ok && S.IsInsert(op)
    && Outside(m, t, rows, L.Thread(L.Pool(L.CheckFree), L.END)) && |m.link.words| == |b.link.words|
  }

  /** Thread t is back from the index with a new key; unfolded only where `NewSentIs` calls for it. */
  ghost predicate NewSent(b: J.Both, d: J.Both, t: int, c: Cache, op: Op, o: Applied) {
    forall u {:trigger Look(u)} :: Look(u) ==> NewIsSent(b, d, t, c, op, o)
  }

  ghost predicate NewIsSent(b: J.Both, d: J.Both, t: int, c: Cache, op: Op, o: Applied) {
    && Fits(c, t) && C.Loose(Popped(c, t), Spare(c, t)) && L.In(b.link, Spare(c, t))
    && Sent(b, d, t, Popped(c, t), op, o, L.Thread(L.Link(Spare(c, t), true, L.LinkStore), L.END))
    && |b.link.threads| == c.threads && o.res == Ok && S.IsInsert(op) && op.e == Spare(c, t)
  }

  lemma NewSentIs(b: J.Both, d: J.Both, t: int, c: Cache, op: Op, o: Applied)
    ensures NewSent(b, d, t, c, op, o) <==> NewIsSent(b, d, t, c, op, o)
  {
    assert Look(0);
  }

  lemma GrewTo(home: int -> int, b: J.Both, d: J.Both, t: int, ch: J.Choice, c: Cache, op: Op, o: Applied,
               c1: Cache)
    returns (m: J.Both)
    requires NewSent(b, d, t, c, op, o) && !ch.spurious && J.Runs(d, t) && Fits(c, t) && c1 == Linked(c, t, o)
    ensures J.Runs(m, t) && Gets(home, d, t, ch, m) && Grew(b, m, t, op, o, c1.rows) && op.e == Spare(c, t)
  {
    NewSentIs(b, d, t, c, op, o);
    m := NewLinked(home, d, t, ch, c);
    BesideAgain(b, d, m, t);
  }

  /** A new key while other elements are spare. */
  lemma AddRests(home: int -> int, b: J.Both, m: J.Both, t: int, ch: J.Choice, c: Cache, call: Call, op: Op, o: Applied,
                 c1: Cache)
    returns (r: J.Both)
    requires Before(home, b, t, ch, c, call) && Starting(home, b, t, ch, c, call)
    requires Grew(b, m, t, op, o, c1.rows) && c1 == Linked(c, t, o) && |o.t.elems| == |c.g.elems| && Pool(c1, t) != []
    requires op.e == Spare(c, t)
    ensures Gets(home, m, t, ch, r) && Shows(r, c1) && r.slot == m.slot
  {
    r := NewRests(home, m, t, ch, c1.rows);
    BesideAgain(b, m, r, t);
    HandsBefore(home, b, t, ch, c, call);
    SpareHand(b.slot.hand, c, t);
    HandsLinked(b.slot.hand, c, home, t, r.slot.hand, c1.rows);
    ShowsAfter(home, b, r, t, ch, c, call, c1);
  }

  lemma HandsBefore(home: int -> int, b: J.Both, t: int, ch: J.Choice, c: Cache, call: Call)
    requires Before(home, b, t, ch, c, call)
    ensures Hands(b.slot.hand, c.rows, c.threads)
  {
    BeforeIs(home, b, t, ch, c, call);
    ShowsIs(b, c);
  }

  /** Everything about an eviction that is about to begin; `Evicting` is unfolded only where
      `EvictingIs` calls for it. */
  ghost predicate EvictionDue(home: int -> int, b: J.Both, m: J.Both, t: int, c: Cache, op: Op, o: Applied, c1: Cache,
                           x: int) {
    && Fits(c, t) && Grew(b, m, t, op, o, c1.rows) && c1 == Linked(c, t, o) && |o.t.elems| == |c.g.elems|
    && op.e == Spare(c, t) && Almost(c1, home) && WellTabled(c1.g) && Homes(home, |c1.g.slots|)
    && c1.rows[t] != [] && x == Tail(c1, t) && 0 <= x < |c1.g.elems| && Pool(c1, t) == []
  }

  ghost predicate Evicting(home: int -> int, b: J.Both, m: J.Both, t: int, c: Cache, op: Op, o: Applied, c1: Cache,
                           x: int) {
    forall u {:trigger Look(u)} :: Look(u) ==> EvictionDue(home, b, m, t, c, op, o, c1, x)
  }

  lemma EvictingIs(home: int -> int, b: J.Both, m: J.Both, t: int, c: Cache, op: Op, o: Applied, c1: Cache, x: int)
    ensures Evicting(home, b, m, t, c, op, o, c1, x) <==> EvictionDue(home, b, m, t, c, op, o, c1, x)
  {
    assert Look(0);
  }

  /** Who has which element before and after it. */
  lemma EvictHands(home: int -> int, b: J.Both, m: J.Both, t: int, ch: J.Choice, c: Cache, call: Call, op: Op,
                   o: Applied, c1: Cache, x: int, rows': seq<seq<int>>)
    requires Before(home, b, t, ch, c, call) && Starting(home, b, t, ch, c, call)
    requires Evicting(home, b, m, t, c, op, o, c1, x)
    requires |c1.rows| == 2 * c1.threads && 0 <= t < c1.threads && c1.rows[t] != []
    requires rows' == Moved(c1.rows, t, |c1.rows[t]| - 1, c1.threads + t)
    ensures |m.slot.hand| == |b.slot.hand| && 0 <= x < |m.slot.hand| && m.slot.hand[x] == S.NOBODY
    ensures Hands(m.slot.hand[x := t], rows', c.threads)
  {
    EvictingIs(home, b, m, t, c, op, o, c1, x);
    HandsBefore(home, b, t, ch, c, call);
    SpareHand(b.slot.hand, c, t);
    HandsLinked(b.slot.hand, c, home, t, m.slot.hand, c1.rows);
    HandsTrimmed(m.slot.hand, c1, home, t, x, rows');
  }

  lemma EvictCallable(home: int -> int, b: J.Both, m: J.Both, t: int, ch: J.Choice, c: Cache, call: Call, op: Op,
                      o: Applied, c1: Cache, x: int)
    requires Before(home, b, t, ch, c, call) && Starting(home, b, t, ch, c, call)
    requires Evicting(home, b, m, t, c, op, o, c1, x)
    ensures Callable(home, m.slot, t, Remove(x), c1.g) && Grew(b, m, t, op, o, c1.rows) && 0 <= t < |c1.rows|
    ensures |c1.rows| == 2 * c1.threads && c1.threads == c.threads && c1.rows[c1.threads + t] == []
    ensures c1.rows[t] != [] && x == c1.rows[t][|c1.rows[t]| - 1]
  {
    EvictingIs(home, b, m, t, c, op, o, c1, x);
    EvictHands(home, b, m, t, ch, c, call, op, o, c1, x, Moved(c1.rows, t, |c1.rows[t]| - 1, c1.threads + t));
  }

  lemma EvictRuns(home: int -> int, m: J.Both, t: int, ch: J.Choice, rows: seq<seq<int>>, x: int, g: Table, q: Applied,
                  p: int, rows': seq<seq<int>>)
    returns (r: J.Both)
    requires Outside(m, t, rows, L.Thread(L.Pool(L.CheckFree), L.END)) && !ch.spurious && L.In(m.link, ch.e)
    requires p == |m.link.threads| + t && rows[p] == [] && rows[t] != [] && x == rows[t][|rows[t]| - 1]
    requires rows' == Moved(rows, t, |rows[t]| - 1, p)
    requires Callable(home, m.slot, t, Remove(x), g) && Meant(g, home, Remove(x), q) && q.res != Refused
    ensures Gets(home, m, t, ch, r)
    ensures if TooLong(g, home, Remove(x)) then r.slot.ended
            else
              && Beside(m, r, t) && Served(m.slot, r.slot, t, Remove(x), q)
              && Outside(r, t, rows', L.Thread(L.Pool(L.Idle), L.END))
  {
    var cut := rows[t := Cut(rows[t], |rows[t]| - 1)];
    assert rows' == cut[p := [x] + cut[p]];
    var d := NewTrims(home, m, t, ch, rows, x);
    r := TailRemoved(home, m, d, t, ch, cut, x, g, q, p, rows');
    GetsOn(home, m, t, ch, d, r);
  }

  lemma ShowsEvicted(home: int -> int, b: J.Both, m: J.Both, r: J.Both, t: int, ch: J.Choice, c: Cache, call: Call,
                     op: Op, o: Applied, c1: Cache, x: int, q: Applied)
    requires Before(home, b, t, ch, c, call) && Starting(home, b, t, ch, c, call)
    requires Evicting(home, b, m, t, c, op, o, c1, x) && |q.t.elems| == |c.g.elems|
    requires Beside(b, m, t) && Beside(m, r, t) && Served(m.slot, r.slot, t, Remove(x), q)
    requires |c1.rows| == 2 * c1.threads && c1.threads == c.threads && c1.rows[t] != []
    requires Outside(r, t, Trimmed(c1, t, q).rows, L.Thread(L.Pool(L.Idle), L.END))
    ensures Shows(r, Trimmed(c1, t, q))
  {
    EvictHands(home, b, m, t, ch, c, call, op, o, c1, x, Trimmed(c1, t, q).rows);
    BesideAgain(b, m, r, t);
    ShowsAfter(home, b, r, t, ch, c, call, Trimmed(c1, t, q));
  }

  /** A new key that takes the last spare element. */
  lemma AddEvicts(home: int -> int, b: J.Both, m: J.Both, t: int, ch: J.Choice, c: Cache, call: Call, op: Op,
                  o: Applied,
                  c1: Cache, x: int, q: Applied)
    returns (r: J.Both)
    requires Before(home, b, t, ch, c, call) && Starting(home, b, t, ch, c, call)
    requires Evicting(home, b, m, t, c, op, o, c1, x) && Homes(home, |c1.g.slots|)
    requires |c1.rows| == 2 * c1.threads && c1.threads == c.threads && c1.rows[t] != []
    requires Meant(c1.g, home, Remove(x), q) && q.res == Ok && |q.t.elems| == |c.g.elems|
    ensures J.Runs(m, t) && Gets(home, m, t, ch, r)
    ensures if TooLong(c1.g, home, Remove(x)) then r.slot.ended
            else Shows(r, Trimmed(c1, t, q)) && r.slot.trace == m.slot.trace + Told(t, Remove(x), Ok)
  {
    EvictCallable(home, b, m, t, ch, c, call, op, o, c1, x);
    r := EvictRuns(home, m, t, ch, c1.rows, x, c1.g, q, c1.threads + t, Trimmed(c1, t, q).rows);
    if !TooLong(c1.g, home, Remove(x)) {
      ShowsEvicted(home, b, m, r, t, ch, c, call, op, o, c1, x, q);
    }
  }

  /** How the call ends: with an overrun exactly when the cache says so, else with the cache, the
      answer and the events it says.  Unfolded only where `EndsIs` calls for it. */
  ghost predicate Ends(home: int -> int, b: J.Both, r: J.Both, t: int, c: Cache, call: Call)
    requires Fits(c, t) && Homes(home, |c.g.slots|)
  {
    forall u {:trigger Look(u)} :: Look(u) ==>
      if Overruns(c, Probing(home), home, t, call) then r.slot.ended
      else Over(b, r, t, Step(c, Probing(home), t, call).c, Story(c, home, t, call))
  }

  lemma EndsIs(home: int -> int, b: J.Both, r: J.Both, t: int, c: Cache, call: Call)
    requires Fits(c, t) && Homes(home, |c.g.slots|)
    ensures Ends(home, b, r, t, c, call) <==>
              if Overruns(c, Probing(home), home, t, call) then r.slot.ended
              else Over(b, r, t, Step(c, Probing(home), t, call).c, Story(c, home, t, call))
  {
    assert Look(0);
  }

  /** The ways it can end. */
  lemma EndsShort(home: int -> int, b: J.Both, r: J.Both, t: int, c: Cache, call: Call, c': Cache, res: Res)
    requires Fits(c, t) && Homes(home, |c.g.slots|) && !TooLong(c.g, home, OpOf(c, t, call)) && !Evicts(c, t, call)
    requires Makes(c, home, t, call, Done(c', res))
    requires Shows(r, c') && r.slot.trace == b.slot.trace + Told(t, OpOf(c, t, call), res)
    ensures Ends(home, b, r, t, c, call)
  {
    EndsIs(home, b, r, t, c, call);
    MakesIs(c, home, t, call, Done(c', res));
    assert Story(c, home, t, call) == Told(t, OpOf(c, t, call), res);
  }

  lemma EndsLong(home: int -> int, b: J.Both, r: J.Both, t: int, c: Cache, call: Call, c1: Cache, x: int, c': Cache)
    requires Fits(c, t) && Homes(home, |c.g.slots|) && !TooLong(c.g, home, OpOf(c, t, call)) && Evicts(c, t, call)
    requires Adding(c, home, t, OpOf(c, t, call), c1) && Homes(home, |c1.g.slots|)
    requires Makes(c, home, t, call, Done(c', Ok))
    requires 0 <= t < |c1.rows| && c1.rows[t] != [] && x == Tail(c1, t)
    requires if TooLong(c1.g, home, Remove(x)) then r.slot.ended
             else Shows(r, c') && r.slot.trace == b.slot.trace + Told(t, OpOf(c, t, call), Ok) + Told(t, Remove(x), Ok)
    ensures Ends(home, b, r, t, c, call)
  {
    EndsIs(home, b, r, t, c, call);
    MakesIs(c, home, t, call, Done(c', Ok));
    StoryLong(home, t, c, call, c1, x, c');
    Joined(b.slot.trace, Told(t, OpOf(c, t, call), Ok), Told(t, Remove(x), Ok));
    AddingIs(c, home, t, OpOf(c, t, call), c1);
  }

  lemma StoryLong(home: int -> int, t: int, c: Cache, call: Call, c1: Cache, x: int, c': Cache)
    requires Fits(c, t) && Evicts(c, t, call) && Adding(c, home, t, OpOf(c, t, call), c1)
    requires Makes(c, home, t, call, Done(c', Ok)) && 0 <= t < |c1.rows| && c1.rows[t] != [] && x == Tail(c1, t)
    ensures Story(c, home, t, call) == Told(t, OpOf(c, t, call), Ok) + Told(t, Remove(x), Ok)
  {
    MakesIs(c, home, t, call, Done(c', Ok));
    AddingIs(c, home, t, OpOf(c, t, call), c1);
  }

  lemma Joined(a: seq<S.Event>, b: seq<S.Event>, c: seq<S.Event>)
    ensures a + b + c == a + (b + c)
  {}

  lemma EndsTooLong(home: int -> int, b: J.Both, r: J.Both, t: int, c: Cache, call: Call)
    requires Fits(c, t) && Homes(home, |c.g.slots|) && TooLong(c.g, home, OpOf(c, t, call)) && r.slot.ended
    ensures Ends(home, b, r, t, c, call)
  {
    EndsIs(home, b, r, t, c, call);
  }

  /** A new key, once its element is linked: the thread keeps a spare element, or it evicts. */
  lemma GrowthRests(home: int -> int, b: J.Both, m: J.Both, t: int, ch: J.Choice, c: Cache, call: Call, op: Op,
                    o: Applied, c1: Cache)
    returns (r: J.Both)
    requires Before(home, b, t, ch, c, call) && Starting(home, b, t, ch, c, call) && !TooLong(c.g, home, op)
    requires Adds(call) && call.k !in Keys(c.g) && op == OpOf(c, t, call) && |o.t.elems| == |c.g.elems|
    requires c1 == Linked(c, t, o) && Grew(b, m, t, op, o, c1.rows) && Pool(c1, t) != []
    requires Adding(c, home, t, op, c1) && !Evicts(c, t, call)
    ensures Gets(home, m, t, ch, r) && Ends(home, b, r, t, c, call)
  {
    GrownOnly(c, home, t, call, c1);
    r := AddRests(home, b, m, t, ch, c, call, op, o, c1);
    EndsShort(home, b, r, t, c, call, c1, Ok);
  }

  lemma GrowthEvicts(home: int -> int, b: J.Both, m: J.Both, t: int, ch: J.Choice, c: Cache, call: Call, op: Op,
                     o: Applied, c1: Cache)
    returns (r: J.Both)
    requires Before(home, b, t, ch, c, call) && Starting(home, b, t, ch, c, call) && !TooLong(c.g, home, op)
    requires Adds(call) && call.k !in Keys(c.g) && op == OpOf(c, t, call) && |o.t.elems| == |c.g.elems|
    requires c1 == Linked(c, t, o) && |o.t.slots| == |c.g.slots| && c1.rows[t] != [] && Almost(c1, home)
    requires Grew(b, m, t, op, o, c1.rows) && Pool(c1, t) == []
    requires Adding(c, home, t, op, c1) && Evicts(c, t, call)
    ensures Gets(home, m, t, ch, r) && Ends(home, b, r, t, c, call)
  {
    var x := Tail(c1, t);
    var q := ShrinksBy(c, home, t, call, c1, x);
    EvictingIs(home, b, m, t, c, op, o, c1, x);
    r := AddEvicts(home, b, m, t, ch, c, call, op, o, c1, x, q);
    EndsLong(home, b, r, t, c, call, c1, x, Trimmed(c1, t, q));
  }

  /** insert and insertOrSet of a new key. */
  lemma AddGrows(home: int -> int, b: J.Both, d: J.Both, t: int, ch: J.Choice, c: Cache, call: Call, op: Op,
                 o: Applied)
    returns (r: J.Both)
    requires Before(home, b, t, ch, c, call) && Starting(home, b, t, ch, c, call) && !TooLong(c.g, home, op)
    requires Adds(call) && call.k !in Keys(c.g) && op == OpOf(c, t, call) && Meant(c.g, home, op, o)
    requires NewSent(b, d, t, c, op, o) && J.Runs(d, t)
    ensures Gets(home, d, t, ch, r) && Ends(home, b, r, t, c, call)
  {
    var c1 := GrowsBy(c, home, t, call, o);
    var m := GrewTo(home, b, d, t, ch, c, op, o, c1);
    if Evicts(c, t, call) {
      r := GrowthEvicts(home, b, m, t, ch, c, call, op, o, c1);
    } else {
      r := GrowthRests(home, b, m, t, ch, c, call, op, o, c1);
    }
    GetsOn(home, d, t, ch, m, r);
  }

  /** get and set. */
  lemma LookUpAlone(home: int -> int, b: J.Both, t: int, ch: J.Choice, c: Cache, call: Call) returns (r: J.Both)
    requires Before(home, b, t, ch, c, call) && !Adds(call)
    ensures Starting(home, b, t, ch, c, call) && J.Runs(J.Step(home, b, t, ch), t)
    ensures Gets(home, J.Step(home, b, t, ch), t, ch, r) && Ends(home, b, r, t, c, call)
  {
    BeforeRuns(home, b, t, ch, c, call);
    var op := OpOf(c, t, call);
    r := LookUpAnswered(home, b, t, ch, c, call);
    if TooLong(c.g, home, op) {
      EndsTooLong(home, b, r, t, c, call);
    } else {
      var o := Apply(c.g, home, op);
      StepLooked(c, home, t, call, o);
      if call.k in Keys(c.g) {
        var d := LookUpHits(home, b, r, t, ch, c, call, op, o);
        GetsOn(home, J.Step(home, b, t, ch), t, ch, r, d);
        r := d;
      } else {
        LookUpMisses(home, b, r, t, ch, c, call, op, o);
      }
      EndsShort(home, b, r, t, c, call, Looked(c, t, call, o), o.res);
    }
  }

  /** insert and insertOrSet once the index has answered o. */
  lemma AddReturns(home: int -> int, b: J.Both, a: J.Both, d: J.Both, t: int, ch: J.Choice, c: Cache, call: Call,
                   op: Op,
                   o: Applied)
    returns (r: J.Both)
    requires Before(home, b, t, ch, c, call) && Starting(home, b, t, ch, c, call) && Armed(b, a, t, c) && Adds(call)
    requires op == OpOf(c, t, call) && o == Apply(c.g, home, op) && !TooLong(c.g, home, op)
    requires Back(b, d, t, op, o, L.Step(a.link, t, J.Told(op, o.res, ch.e)))
    ensures Gets(home, d, t, ch, r) && Ends(home, b, r, t, c, call)
  {
    var e := Spare(c, t);
    if call.k in Keys(c.g) {
      StepLooked(c, home, t, call, o);
      if call.CallInsert? {
        SentDuplicate(b, a, d, t, Popped(c, t), e, op, o, ch.e);
        r := AddRefused(home, b, d, t, ch, c, call, op, o);
      } else {
        SentHit(b, a, d, t, Popped(c, t), e, op, o, ch.e);
        r := AddOverwrites(home, b, d, t, ch, c, call, op, o);
      }
      EndsShort(home, b, r, t, c, call, Looked(c, t, call, o), o.res);
    } else {
      InsertAnswers(c, home, t, call);
      SentNew(b, a, d, t, Popped(c, t), e, op, o, ch.e);
      NewSentIs(b, d, t, c, op, o);
      MeantIs(c.g, home, op, o);
      r := AddGrows(home, b, d, t, ch, c, call, op, o);
    }
  }

  lemma AddAlone(home: int -> int, b: J.Both, t: int, ch: J.Choice, c: Cache, call: Call) returns (r: J.Both)
    requires Before(home, b, t, ch, c, call) && Adds(call)
    ensures Starting(home, b, t, ch, c, call) && J.Runs(J.Step(home, b, t, ch), t)
    ensures Gets(home, J.Step(home, b, t, ch), t, ch, r) && Ends(home, b, r, t, c, call)
  {
    var a := SpareTaken(home, b, t, ch, c, call);
    var d := AddAnswered(home, b, a, t, ch, c, call);
    var op := OpOf(c, t, call);
    GetsOn(home, J.Step(home, b, t, ch), t, ch, a, d);
    if TooLong(c.g, home, op) {
      r := d;
      EndsTooLong(home, b, r, t, c, call);
    } else {
      r := AddReturns(home, b, a, d, t, ch, c, call, op, Apply(c.g, home, op));
      GetsOn(home, J.Step(home, b, t, ch), t, ch, d, r);
    }
  }

  /** Main theorem.  All threads are between calls, and words and slots spell out a cache in order.
      Then a call by one of them that goes on alone, a hit moving the element the index has found,
      ends with all threads between calls again and words and slots spelling out the cache, and the
      thread having the answer, that `LruCache.Step` says; unless it needs more slots than its lock
      buffer has entries, and exactly then, it overruns the buffer. */
  lemma LoneCall(home: int -> int, b: J.Both, t: int, ch: J.Choice, c: Cache, call: Call) returns (k: nat)
    requires SpeltAtRest(b, c) && Good(c, home) && 0 <= t < c.threads && Asks(ch, call) && L.In(b.link, ch.e)
    requires call.k in Keys(c.g) ==> ch.e == Found(c.g, call.k)
    ensures Fits(c, t) && J.Runs(b, t) && J.Runs(J.Step(home, b, t, ch), t)
    ensures var r := On(home, J.Step(home, b, t, ch), t, ch, k);
            if Overruns(c, Probing(home), home, t, call) then r.slot.ended
            else (
              && SpeltAtRest(r, Step(c, Probing(home), t, call).c)
              && r.slot.trace == b.slot.trace + Story(c, home, t, call))
  {
    ShowsIs(b, c);
    KeptIs(c, home);
    BeforeIs(home, b, t, ch, c, call);
    var r;
    if Adds(call) {
      r := AddAlone(home, b, t, ch, c, call);
    } else {
      r := LookUpAlone(home, b, t, ch, c, call);
    }
    k := EndsAfter(home, b, r, t, ch, c, call);
  }

  lemma EndsAfter(home: int -> int, b: J.Both, r: J.Both, t: int, ch: J.Choice, c: Cache, call: Call) returns (k: nat)
    requires Fits(c, t) && Homes(home, |c.g.slots|) && J.Runs(b, t) && J.Runs(J.Step(home, b, t, ch), t)
    requires Gets(home, J.Step(home, b, t, ch), t, ch, r) && Ends(home, b, r, t, c, call)
    ensures On(home, J.Step(home, b, t, ch), t, ch, k) == r
    ensures if Overruns(c, Probing(home), home, t, call) then r.slot.ended
            else (
              && SpeltAtRest(r, Step(c, Probing(home), t, call).c)
              && r.slot.trace == b.slot.trace + Story(c, home, t, call))
  {
    GetsIs(home, J.Step(home, b, t, ch), t, ch, r);
    EndsIs(home, b, r, t, c, call);
    ShowsIs(r, Step(c, Probing(home), t, call).c);
    k :| On(home, J.Step(home, b, t, ch), t, ch, k) == r;
  }
}
