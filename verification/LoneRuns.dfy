/**
 Calls after any run of any number of threads: once all are between calls, words and slots spell out
 exactly one cache, that cache is in order, and a call by one thread alone carries it on.
 */
module LoneRuns {
  import opened Index
  import opened IndexTable
  import opened IndexMap
  import opened IndexEngine
  import opened LruRows
  import opened LruCache
  import opened LruTable
  import L = LinkWords
  import V = LinkInvariant
  import LinkTheorems
  import S = SlotLocks
  import SlotInvariant
  import SlotTheorems
  import J = Composed
  import C = LinkChains
  import Lists = LoneLists
  import opened LoneCalls
  import Blocks
  import Pigeonhole

  // ---- words and slots spell out one cache at most ----

  /** A row as its words link it to the right. */
  ghost predicate Rightward(words: seq<L.Word>, row: seq<int>) {
    |words| <= L.END && forall i {:trigger row[i]} :: 0 <= i < |row| ==>
      0 <= row[i] < |words| && words[row[i]].right == C.Next(row, i)
  }

  lemma RowRightward(words: seq<L.Word>, rows: seq<seq<int>>, threads: int, a: int)
    requires 0 <= a < |rows| && C.RowRep(words, rows, threads, a) && |words| <= L.END
    ensures Rightward(words, rows[a])
  {
    var row := rows[a];
    forall i | 0 <= i < |row| ensures 0 <= row[i] < |words| && words[row[i]].right == C.Next(row, i) {
      assert words[row[i]] == words[row[i]];
    }
  }

  lemma {:induction false} SameStart(words: seq<L.Word>, row: seq<int>, row': seq<int>, i: nat)
    requires Rightward(words, row) && Rightward(words, row') && C.First(row) == C.First(row')
    requires i < |row| && i < |row'|
    ensures row[i] == row'[i] && (i + 1 == |row| <==> i + 1 == |row'|)
  {
    if i > 0 { SameStart(words, row, row', i - 1); }
    assert words[row[i]].right == C.Next(row, i) && words[row'[i]].right == C.Next(row', i);
    if i + 1 < |row| { assert 0 <= row[i + 1] < |words|; }
    if i + 1 < |row'| { assert 0 <= row'[i + 1] < |words|; }
    if i == 0 { assert C.First(row) == row[0] && C.First(row') == row'[0]; }
  }

  lemma SameRow(words: seq<L.Word>, row: seq<int>, row': seq<int>)
    requires Rightward(words, row) && Rightward(words, row') && C.First(row) == C.First(row')
    ensures row == row'
  {
    if row != [] { assert 0 <= row[0] < |words|; }
    if row' != [] { assert 0 <= row'[0] < |words|; }
    if row != [] && row' != [] {
      if |row| <= |row'| { SameStart(words, row, row', |row| - 1); } else { SameStart(words, row, row', |row'| - 1); }
      forall i | 0 <= i < |row| ensures row[i] == row'[i] { SameStart(words, row, row', i); }
    }
  }

  lemma SameRows(words: seq<L.Word>, rows: seq<seq<int>>, rows': seq<seq<int>>, threads: int, ends: seq<C.Ends>)
    requires C.Rep(words, rows, threads, ends) && C.Rep(words, rows', threads, ends)
    ensures rows == rows'
  {
    forall a | 0 <= a < |rows| ensures rows[a] == rows'[a] {
      var t := if a < threads then a else a - threads;
      assert ends[t] == C.EndsOf(rows, threads, t) && ends[t] == C.EndsOf(rows', threads, t);
      assert C.RowRep(words, rows, threads, a) && C.RowRep(words, rows', threads, a);
      RowRightward(words, rows, threads, a);
      RowRightward(words, rows', threads, a);
      SameRow(words, rows[a], rows'[a]);
    }
  }

  /** What is read from words and slots is read in one way only. */
  lemma SpeltOnce(b: J.Both, c: Cache, c': Cache)
    requires Spelt(b, c) && Spelt(b, c') && c.owned == c'.owned
    ensures c == c'
  {
    C.LaidOut(b.link.words, c.rows, c.threads, Lists.AllEnds(b.link));
    C.LaidOut(b.link.words, c'.rows, c.threads, Lists.AllEnds(b.link));
    SameRows(b.link.words, c.rows, c'.rows, c.threads, Lists.AllEnds(b.link));
  }

  // ---- what a run leaves once all threads are between calls ----

  /** The lists and free lists the words spell out, with nothing locked and nothing in hand. */
  ghost predicate Resting(b: J.Both, v: V.View, lists: seq<seq<int>>, frees: seq<seq<int>>) {
    J.Joined(b, v) && J.Quiescent(b) && LinkTheorems.AllAre(b.link, v, lists, frees)
  }

  lemma ListAt(b: J.Both, v: V.View, lists: seq<seq<int>>, frees: seq<seq<int>>, t: int)
    requires Resting(b, v, lists, frees) && 0 <= t < |lists|
    ensures LinkTheorems.Anchored(b.link, t, lists[t], frees[t]) && |lists| == |frees| == |b.link.threads|
    ensures b.link.threads[t] == L.Thread(L.Pool(L.Idle), L.END)
  {
    assert LinkTheorems.Lists(b.link, v, t, lists[t], frees[t]);
    LinkTheorems.ListsAnchored(b.link, v, t, lists[t], frees[t]);
  }

  lemma ListChain(b: J.Both, v: V.View, lists: seq<seq<int>>, frees: seq<seq<int>>, t: int)
    requires Resting(b, v, lists, frees) && 0 <= t < |lists|
    ensures C.Chain(b.link.words, lists[t])
  {
    ListAt(b, v, lists, frees, t);
    var row := lists[t];
    forall i | 0 <= i < |row|
      ensures 0 <= row[i] < |b.link.words| && b.link.words[row[i]] == L.Word(C.Prev(row, i), C.Next(row, i))
    {
      assert L.In(b.link, row[i]);
      LinkTheorems.NothingLocked(b.link, v, row[i]);
    }
  }

  lemma FreeChain(b: J.Both, v: V.View, lists: seq<seq<int>>, frees: seq<seq<int>>, t: int)
    requires Resting(b, v, lists, frees) && 0 <= t < |lists|
    ensures C.Pooled(b.link.words, frees[t])
  {
    ListAt(b, v, lists, frees, t);
    var row := frees[t];
    forall i | 0 <= i < |row|
      ensures 0 <= row[i] < |b.link.words| && b.link.words[row[i]] == L.Word(L.END, C.Next(row, i))
    {
      assert L.In(b.link, row[i]);
    }
  }

  /** The place the view gives the element at place i of row a. */
  function PlaceAt(threads: int, a: int): V.Place { if a < threads then V.InList(a) else V.InFree(a - threads) }

  lemma RowPlace(b: J.Both, v: V.View, lists: seq<seq<int>>, frees: seq<seq<int>>, a: int, i: int)
    requires Resting(b, v, lists, frees) && |lists| == |frees| && InRow(lists + frees, a, i)
    ensures var x := (lists + frees)[a][i]; V.Has(v, x) && v.cells[x].place == PlaceAt(|lists|, a)
  {
    var t := if a < |lists| then a else a - |lists|;
    LinkTheorems.Member(b.link, v, lists, frees, t, (lists + frees)[a][i]);
  }

  lemma RowDistinct(b: J.Both, v: V.View, lists: seq<seq<int>>, frees: seq<seq<int>>, a: int, i: int, j: int)
    requires Resting(b, v, lists, frees) && |lists| == |frees|
    requires InRow(lists + frees, a, i) && InRow(lists + frees, a, j) && (lists + frees)[a][i] == (lists + frees)[a][j]
    ensures i == j
  {
    var t := if a < |lists| then a else a - |lists|;
    ListAt(b, v, lists, frees, t);
  }

  lemma RowsApart(b: J.Both, v: V.View, lists: seq<seq<int>>, frees: seq<seq<int>>)
    requires Resting(b, v, lists, frees) && |lists| == |frees|
    ensures Disjoint(lists + frees)
  {
    var rows := lists + frees;
    forall a, i, d, j | InRow(rows, a, i) && InRow(rows, d, j) && rows[a][i] == rows[d][j] ensures a == d && i == j {
      RowPlace(b, v, lists, frees, a, i);
      RowPlace(b, v, lists, frees, d, j);
      if a == d { RowDistinct(b, v, lists, frees, a, i, j); }
    }
  }

  lemma RowsLaid(b: J.Both, v: V.View, lists: seq<seq<int>>, frees: seq<seq<int>>)
    requires Resting(b, v, lists, frees) && |lists| == |frees| == |b.link.threads| && L.Shaped(b.link)
    ensures Lists.Spells(b.link, lists + frees)
  {
    var rows, n, ends := lists + frees, |lists|, Lists.AllEnds(b.link);
    RowsApart(b, v, lists, frees);
    forall a | 0 <= a < |rows| ensures C.RowRep(b.link.words, rows, n, a) {
      if a < n { ListChain(b, v, lists, frees, a); } else { FreeChain(b, v, lists, frees, a - n); }
    }
    forall t | 0 <= t < n ensures ends[t] == C.EndsOf(rows, n, t) {
      ListAt(b, v, lists, frees, t);
    }
    C.LaidOut(b.link.words, rows, n, ends);
  }

  lemma RowsHands(b: J.Both, v: V.View, lists: seq<seq<int>>, frees: seq<seq<int>>)
    requires Resting(b, v, lists, frees) && |lists| == |frees|
    ensures Hands(b.slot.hand, lists + frees, |lists|)
  {
    var rows := lists + frees;
    forall a, i | InRow(rows, a, i)
      ensures 0 <= rows[a][i] < |b.slot.hand|
              && b.slot.hand[rows[a][i]] == if a < |lists| then S.NOBODY else a - |lists|
    {
      RowPlace(b, v, lists, frees, a, i);
      assert J.Kept(b, v, rows[a][i]);
    }
    HandsAre(b.slot.hand, rows, |lists|);
  }

  /** The rows hold exactly the elements that were on free lists to begin with. */
  lemma RowsPartition(n: nat, threads: nat, b: J.Both, v: V.View, lists: seq<seq<int>>, frees: seq<seq<int>>)
    requires 0 < threads <= n && Resting(b, v, lists, frees) && |lists| == |frees| == threads
    requires |b.link.threads| == threads && LinkTheorems.SameUnowned(LinkTheorems.FirstView(n, threads), v)
    ensures Partition(lists + frees, threads * (n / threads))
  {
    var rows, m := lists + frees, threads * (n / threads);
    RowsApart(b, v, lists, frees);
    J.ListsStand(n, threads, b, v, lists, frees);
    forall x ensures 0 <= x < m <==> Somewhere(rows, x) {
      J.NoHands(b, v, x);
      if 0 <= x < m { InSome(lists, frees, m, LinkTheorems.Hands(b.link), x); }
      if Somewhere(rows, x) {
        var a :| 0 <= a < |rows| && x in rows[a];
        var i :| 0 <= i < |rows[a]| && rows[a][i] == x;
        RowPlace(b, v, lists, frees, a, i);
        assert !LinkTheorems.FirstView(n, threads).cells[x].place.Unowned?;
      }
    }
  }

  lemma InSome(lists: seq<seq<int>>, frees: seq<seq<int>>, m: int, hands: set<int>, x: int)
    requires LinkTheorems.Partition(m, lists, frees, hands) && 0 <= x < m && x !in hands
    ensures Somewhere(lists + frees, x)
  {
    var rows := lists + frees;
    if t :| 0 <= t < |lists| && x in lists[t] {
      assert x in rows[t];
    } else {
      var t :| 0 <= t < |frees| && x in frees[t];
      assert x in rows[|lists| + t];
    }
  }

  lemma RowsIndexed(c: Cache, b: J.Both, lists: seq<seq<int>>, frees: seq<seq<int>>)
    requires J.Agree(b, c.g, lists, frees) && c.rows == lists + frees && c.threads == |lists|
    requires forall x {:trigger x in LinkTheorems.Hands(b.link)} :: x !in LinkTheorems.Hands(b.link)
    ensures Indexed(c)
  {
    forall x | x != FREE ensures x in c.g.slots <==> Listed(c, x) {
      assert x !in LinkTheorems.Hands(b.link);
      if x in c.g.slots {
        var t :| 0 <= t < |lists| && x in lists[t];
        assert x in c.rows[t];
      }
      if Listed(c, x) {
        var t :| 0 <= t < c.threads && t < |c.rows| && x in c.rows[t];
        assert x in lists[t];
        assert J.OnSome(lists, x);
      }
    }
  }

  lemma RowsPools(c: Cache, b: J.Both, v: V.View, lists: seq<seq<int>>, frees: seq<seq<int>>)
    requires Resting(b, v, lists, frees) && |lists| == |frees| && c.rows == lists + frees && c.threads == |lists|
    ensures forall t {:trigger Pool(c, t)} :: 0 <= t < c.threads ==> Pool(c, t) != []
  {
    forall t | 0 <= t < c.threads ensures Pool(c, t) != [] {
      ListAt(b, v, lists, frees, t);
      assert Pool(c, t) == frees[t];
    }
  }

  /** A run that may be looked at: evictions so far have been safe and no lock buffer has overrun. */
  ghost predicate Fine(home: int -> int, n: nat, threads: nat, hashSize: nat, elems: seq<Elem>, ps: seq<J.Pick>) {
    && 0 < threads <= n == |elems| < hashSize && n <= L.END && Homes(home, hashSize) && J.Legal(ps, threads)
    && var b := J.Run(home, J.Start(n, threads, hashSize, elems), ps, threads);
       && !b.slot.ended && SlotTheorems.Benign(home, SlotTheorems.Empty(hashSize, elems), b.slot.trace)
  }

  /** Once all threads are between calls, words and slots spell out a cache in order. */
  lemma RunSpelt(home: int -> int, n: nat, threads: nat, hashSize: nat, elems: seq<Elem>, ps: seq<J.Pick>)
    returns (c: Cache)
    requires Fine(home, n, threads, hashSize, elems, ps)
    requires J.Quiescent(J.Run(home, J.Start(n, threads, hashSize, elems), ps, threads))
    ensures SpeltAtRest(J.Run(home, J.Start(n, threads, hashSize, elems), ps, threads), c) && Good(c, home)
    ensures c.threads == threads && c.owned == threads * (n / threads)
  {
    var b := J.Run(home, J.Start(n, threads, hashSize, elems), ps, threads);
    var v := J.RunJoined(home, n, threads, hashSize, elems, ps);
    var owner := J.IndexHolds(home, n, threads, hashSize, elems, ps);
    var g := S.Replay(home, SlotTheorems.Empty(hashSize, elems), b.slot.trace);
    var lists, frees := LinkTheorems.AllLists(b.link, v, threads);
    J.QuietTable(home, b.slot, g, owner);
    J.ListsAgree(home, b, v, g, owner, lists, frees);
    c := Cache(g, threads, threads * (n / threads), lists + frees);
    RestingGood(home, n, threads, b, v, g, owner, lists, frees, c);
    RestingSpelt(b, v, lists, frees, c);
  }

  lemma RestingGood(home: int -> int, n: nat, threads: nat, b: J.Both, v: V.View, g: Table, owner: seq<int>,
                    lists: seq<seq<int>>, frees: seq<seq<int>>, c: Cache)
    requires 0 < threads <= n == |g.elems| && Resting(b, v, lists, frees) && |lists| == |frees| == threads
    requires |b.link.threads| == threads && LinkTheorems.SameUnowned(LinkTheorems.FirstView(n, threads), v)
    requires SlotInvariant.Inv(home, b.slot, g, owner) && J.Agree(b, g, lists, frees)
    requires c == Cache(g, threads, threads * (n / threads), lists + frees)
    ensures Good(c, home)
  {
    RowsPartition(n, threads, b, v, lists, frees);
    forall x ensures x !in LinkTheorems.Hands(b.link) { J.NoHands(b, v, x); }
    RowsIndexed(c, b, lists, frees);
    RowsPools(c, b, v, lists, frees);
    Blocks.WholeBlocks(n, threads);
  }

  lemma RestingSpelt(b: J.Both, v: V.View, lists: seq<seq<int>>, frees: seq<seq<int>>, c: Cache)
    requires Resting(b, v, lists, frees) && |lists| == |frees| == |b.link.threads| && L.Shaped(b.link) && !b.slot.ended
    requires c.rows == lists + frees && c.threads == |lists| && c.g == Table(b.slot.slots, b.slot.elems)
    ensures SpeltAtRest(b, c)
  {
    RowsLaid(b, v, lists, frees);
    RowsHands(b, v, lists, frees);
    forall t | 0 <= t < c.threads ensures Rests(b, t) {
      assert b.slot.pcs[t].Idle?;
    }
  }

  // ---- and what a lone call makes of it ----

  function Same(t: int, ch: J.Choice, m: nat): seq<J.Pick> { seq(m, _ => J.Pick(t, ch)) }

  ghost predicate Continues(home: int -> int, b: J.Both, ps: seq<J.Pick>, threads: nat) {
    J.Ready(b, threads) && J.Legal(ps, threads)
  }

  lemma OneMore(home: int -> int, b: J.Both, ps: seq<J.Pick>, threads: nat, t: int, ch: J.Choice)
    requires Continues(home, b, ps, threads) && 0 <= t < threads
    ensures Continues(home, b, ps + [J.Pick(t, ch)], threads)
    ensures J.Run(home, b, ps + [J.Pick(t, ch)], threads) == J.Step(home, J.Run(home, b, ps, threads), t, ch)
  {
    var qs := ps + [J.Pick(t, ch)];
    assert qs[..|qs| - 1] == ps;
  }

  /** The lone steps carry the run on. */
  lemma {:induction false} OnIsRun(home: int -> int, b: J.Both, ps: seq<J.Pick>, threads: nat, t: int, ch: J.Choice,
                                   k: nat)
    returns (m: nat)
    requires Continues(home, b, ps, threads) && 0 <= t < threads
    ensures J.Legal(ps + Same(t, ch, m), threads) && J.Runs(J.Run(home, b, ps, threads), t)
    ensures J.Run(home, b, ps + Same(t, ch, m), threads) == On(home, J.Run(home, b, ps, threads), t, ch, k)
    decreases k
  {
    var a := J.Run(home, b, ps, threads);
    if k == 0 || a.slot.ended || Rests(a, t) {
      m := 0;
      assert ps + Same(t, ch, 0) == ps;
    } else {
      OneMore(home, b, ps, threads, t, ch);
      var j := OnIsRun(home, b, ps + [J.Pick(t, ch)], threads, t, ch, k - 1);
      m := j + 1;
      assert ps + Same(t, ch, m) == ps + [J.Pick(t, ch)] + Same(t, ch, j);
    }
  }

  /** Main theorem.  After any run of any number of threads that ends with all of them between calls,
      words and slots spell out a cache in order, and a thread that then makes a call and goes on
      alone, a hit moving the element with its key, comes to the state that spells out what
      `LruCache.Step` makes of that cache, with the answers it gives, or to an overrun if the cache
      says so. */
  lemma LoneCallOfRun(home: int -> int, n: nat, threads: nat, hashSize: nat, elems: seq<Elem>, ps: seq<J.Pick>, t: int,
                      ch: J.Choice, call: Call)
    returns (c: Cache, m: nat)
    requires Fine(home, n, threads, hashSize, elems, ps) && 0 <= t < threads && Asks(ch, call) && 0 <= ch.e < n
    requires var b := J.Run(home, J.Start(n, threads, hashSize, elems), ps, threads);
             && J.Quiescent(b)
             && var g := Table(b.slot.slots, b.slot.elems); call.k in Keys(g) ==> ch.e == Found(g, call.k)
    ensures var b0 := J.Start(n, threads, hashSize, elems);
            var b := J.Run(home, b0, ps, threads);
            && SpeltAtRest(b, c) && Good(c, home) && Fits(c, t) && c.owned == threads * (n / threads)
            && m > 0 && J.Legal(ps + Same(t, ch, m), threads)
            && var r := J.Run(home, b0, ps + Same(t, ch, m), threads);
               if Overruns(c, Probing(home), home, t, call) then r.slot.ended
               else SpeltAtRest(r, Step(c, Probing(home), t, call).c)
                    && r.slot.trace == b.slot.trace + Story(c, home, t, call)
  {
    var b0 := J.Start(n, threads, hashSize, elems);
    var b := J.Run(home, b0, ps, threads);
    c := RunSpelt(home, n, threads, hashSize, elems, ps);
    SameWords(home, b0, ps, threads);
    var k := LoneCall(home, b, t, ch, c, call);
    OneMore(home, b0, ps, threads, t, ch);
    var j := OnIsRun(home, b0, ps + [J.Pick(t, ch)], threads, t, ch, k);
    m := j + 1;
    assert ps + Same(t, ch, m) == ps + [J.Pick(t, ch)] + Same(t, ch, j);
  }

  lemma SameWords(home: int -> int, b: J.Both, ps: seq<J.Pick>, threads: nat)
    requires Continues(home, b, ps, threads)
    ensures |J.Run(home, b, ps, threads).link.words| == |b.link.words|
  {
    var es, qs := J.Projects(home, b, ps, threads);
  }
}
