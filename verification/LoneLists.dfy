/**
 The list operations of a lone thread, told of the lists: each takes an element out of a row or
 puts one at the front of a row, and leaves the link words laid out as the rows that result.
 */
module LoneLists {
  import opened LinkWords
  import opened LoneLinks
  import C = LinkChains
  import opened LruRows

  /** The ends of all lists, thread by thread. */
  function AllEnds(s: State): (r: seq<C.Ends>)
    requires Shaped(s)
    ensures |r| == |s.threads|
  {
    seq(|s.threads|, u requires 0 <= u < |s.threads| => C.Ends(s.head[u], s.tail[u], s.freeHead[u]))
  }

  /** The words spell out the rows, and the lists of every thread begin and end with its rows. */
  ghost predicate Spells(s: State, rows: seq<seq<int>>) {
    Shaped(s) && |rows| == 2 * |s.threads| && C.Laid(s.words, rows, |s.threads|, AllEnds(s))
  }

  lemma EndsFollow(s: State, r: State, t: int, ends: C.Ends)
    requires Runs(s, t) && Alone(s, r, t)
    requires r.head[t] == ends.head && r.tail[t] == ends.tail && r.freeHead[t] == ends.free
    ensures AllEnds(r) == AllEnds(s)[t := ends]
  {
    forall u | 0 <= u < |s.threads| ensures AllEnds(r)[u] == AllEnds(s)[t := ends][u] {
      if u != t { assert r.threads[u] == s.threads[u]; }
    }
  }

  /** New words and ends of thread t, and the rows they spell out. */
  lemma SpellsOn(s: State, r: State, t: int, words: seq<Word>, ends: C.Ends, th: Thread, rows: seq<seq<int>>)
    requires Runs(s, t) && Comes(s, r, t, words, ends, th) && |rows| == 2 * |s.threads|
    requires C.Rep(words, rows, |s.threads|, AllEnds(s)[t := ends])
    ensures Spells(r, rows)
  {
    EndsFollow(s, r, t, ends);
    C.LaidOut(words, rows, |s.threads|, AllEnds(r));
  }

  // ---- unlinkElement ----

  /** Element e is at place i of row u. */
  ghost predicate Stands(s: State, rows: seq<seq<int>>, u: int, i: int, e: int) {
    Spells(s, rows) && 0 <= u < |s.threads| && InRow(rows, u, i) && rows[u][i] == e
  }

  lemma StandsLinked(s: State, rows: seq<seq<int>>, u: int, i: int, e: int)
    requires Stands(s, rows, u, i, e)
    ensures |s.words| <= END && In(s, e) && s.words[e] == Word(C.Prev(rows[u], i), C.Next(rows[u], i))
    ensures i > 0 ==> Stands(s, rows, u, i - 1, rows[u][i - 1]) && rows[u][i - 1] != e
    ensures i < |rows[u]| - 1 ==> Stands(s, rows, u, i + 1, rows[u][i + 1]) && rows[u][i + 1] != e
    ensures 0 < i < |rows[u]| - 1 ==> rows[u][i - 1] != rows[u][i + 1]
  {
    C.LaidOut(s.words, rows, |s.threads|, AllEnds(s));
    assert C.RowRep(s.words, rows, |s.threads|, u);
    assert s.words[rows[u][i]] == Word(C.Prev(rows[u], i), C.Next(rows[u], i));
    if i > 0 { C.DisjointFrom(rows, u, i - 1, u, i); }
    if i < |rows[u]| - 1 { C.DisjointFrom(rows, u, i, u, i + 1); }
    if 0 < i < |rows[u]| - 1 { C.DisjointFrom(rows, u, i - 1, u, i + 1); }
  }

  lemma LinkedOn(s: State, rows: seq<seq<int>>, u: int, i: int, e: int)
    requires Stands(s, rows, u, i, e)
    ensures In(s, e) && s.words[e] == Word(C.Prev(rows[u], i), C.Next(rows[u], i)) && |s.words| <= END
  {
    StandsLinked(s, rows, u, i, e);
  }

  /** unlinkElement gives up: nothing has changed but the thread. */
  ghost predicate GivesUp(s: State, r: State, t: int, rows: seq<seq<int>>, spare: int) {
    Runs(s, t) && Alone(s, r, t) && r.threads[t] == Done(spare) && Spells(r, rows)
  }

  lemma SpellsSame(s: State, r: State, t: int, rows: seq<seq<int>>, th: Thread, words: seq<Word>)
    requires Runs(s, t) && Spells(s, rows) && Comes(s, r, t, words, EndsAt(s, t), th) && words == s.words
    ensures Spells(r, rows)
  {
    EndsFollow(s, r, t, EndsAt(s, t));
    assert AllEnds(s)[t := EndsAt(s, t)] == AllEnds(s);
  }

  /** First or last. */
  lemma StaysAtEnd(s: State, t: int, rows: seq<seq<int>>, u: int, i: int, e: int, spare: int) returns (r: State)
    requires InUnlink(s, t, LoadTarget(e), spare) && Stands(s, rows, u, i, e) && (i == 0 || i == |rows[u]| - 1)
    ensures r == On(s, t, 1) && GivesUp(s, r, t, rows, spare)
  {
    StandsLinked(s, rows, u, i, e);
    AtEnd(s, t, e, spare);
    r := On(s, t, 1);
    SpellsSame(s, r, t, rows, Done(spare), s.words);
  }

  /** Second. */
  lemma StaysSecond(s: State, t: int, rows: seq<seq<int>>, u: int, e: int, spare: int) returns (r: State)
    requires InUnlink(s, t, LoadTarget(e), spare) && Stands(s, rows, u, 1, e) && |rows[u]| > 2
    ensures r == On(s, t, 5) && GivesUp(s, r, t, rows, spare)
  {
    StandsLinked(s, rows, u, 1, e);
    var l, m := rows[u][0], rows[u][2];
    LinkedOn(s, rows, u, 0, l);
    LinkedOn(s, rows, u, 2, m);
    var a := LocksTarget(s, t, e, spare, l, m);
    NextToFirst(a, t, e, Word(l, m), s.words[l], s.words[m], spare);
    r := Then(s, t, 4, a, 1, a.words[e := Word(l, m)], EndsAt(s, t), Done(spare));
    assert a.words[e := Word(l, m)] == s.words;
    SpellsSame(s, r, t, rows, Done(spare), a.words[e := Word(l, m)]);
  }

  /** The left neighbour is locked too, and the right one has been read. */
  ghost predicate BothHeld(s: State, r: State, t: int, e: int, l: int, m: int, spare: int) {
    && Runs(s, t) && In(s, e) && In(s, l) && In(s, m) && e != l
    && Comes(s, r, t, s.words[e := Word(LOCK, LOCK)][l := Word(s.words[l].left, LOCK)], EndsAt(s, t),
             Thread(Unlink(LockRight(e, Word(l, m), s.words[l], s.words[m])), spare))
  }

  lemma LocksBoth(s: State, t: int, rows: seq<seq<int>>, u: int, i: int, e: int, spare: int) returns (r: State)
    requires InUnlink(s, t, LoadTarget(e), spare) && Stands(s, rows, u, i, e) && 2 <= i < |rows[u]| - 1
    ensures r == On(s, t, 5) && BothHeld(s, r, t, e, rows[u][i - 1], rows[u][i + 1], spare)
  {
    StandsLinked(s, rows, u, i, e);
    var l, m := rows[u][i - 1], rows[u][i + 1];
    StandsLinked(s, rows, u, i - 1, l);
    LinkedOn(s, rows, u, i - 2, rows[u][i - 2]);
    LinkedOn(s, rows, u, i + 1, m);
    var a := LocksTarget(s, t, e, spare, l, m);
    LeftLocked(a, t, e, Word(l, m), s.words[l], s.words[m], spare);
    r := Then(s, t, 4, a, 1, a.words[l := Word(s.words[l].left, LOCK)], EndsAt(s, t),
              Thread(Unlink(LockRight(e, Word(l, m), s.words[l], s.words[m])), spare));
  }

  /** Last but one. */
  lemma StaysLastButOne(s: State, t: int, rows: seq<seq<int>>, u: int, i: int, e: int, spare: int) returns (r: State)
    requires InUnlink(s, t, LoadTarget(e), spare) && Stands(s, rows, u, i, e) && 2 <= i == |rows[u]| - 2
    ensures r == On(s, t, 7) && GivesUp(s, r, t, rows, spare)
  {
    StandsLinked(s, rows, u, i, e);
    var l, m := rows[u][i - 1], rows[u][i + 1];
    LinkedOn(s, rows, u, i + 1, m);
    var a := LocksBoth(s, t, rows, u, i, e, spare);
    var b := NextToLast(a, t, e, Word(l, m), s.words[l], s.words[m], spare);
    var words := a.words[e := Word(l, m)][l := s.words[l]];
    r := Then(s, t, 5, a, 2, words, EndsAt(s, t), Done(spare));
    assert words == s.words;
    SpellsSame(s, r, t, rows, Done(spare), words);
  }

  /** Inside: the element is taken out, and the thread goes on to linkHead. */
  lemma TakesOut(s: State, t: int, rows: seq<seq<int>>, u: int, i: int, e: int, spare: int) returns (r: State)
    requires InUnlink(s, t, LoadTarget(e), spare) && Stands(s, rows, u, i, e) && 2 <= i <= |rows[u]| - 3
    ensures r == On(s, t, 9) && Alone(s, r, t) && InLink(r, t, e, false, LinkStore, spare) && In(r, e)
    ensures Spells(r, rows[u := Cut(rows[u], i)]) && C.Loose(rows[u := Cut(rows[u], i)], e)
  {
    StandsLinked(s, rows, u, i, e);
    var l, m := rows[u][i - 1], rows[u][i + 1];
    StandsLinked(s, rows, u, i + 1, m);
    LinkedOn(s, rows, u, i + 2, rows[u][i + 2]);
    var a := LocksBoth(s, t, rows, u, i, e, spare);
    var b := Relinks(a, t, e, Word(l, m), s.words[l], s.words[m], spare);
    r := Then(s, t, 5, a, 4, b.words, EndsAt(s, t), Thread(Link(e, false, LinkStore), spare));
    BridgeIs(s.words, b.words, e, l, m);
    C.LaidOut(s.words, rows, |s.threads|, AllEnds(s));
    C.BridgedRep(s.words, rows, |s.threads|, AllEnds(s), u, i);
    assert AllEnds(s)[t := EndsAt(s, t)] == AllEnds(s);
    SpellsOn(s, r, t, b.words, EndsAt(s, t), Thread(Link(e, false, LinkStore), spare), rows[u := Cut(rows[u], i)]);
  }

  /** All the writes of unlinkElement are one update. */
  lemma BridgeIs(words: seq<Word>, after: seq<Word>, e: int, l: int, m: int)
    requires 0 <= e < |words| && 0 <= l < |words| && 0 <= m < |words| && e != l && e != m && l != m
    requires words[e] == Word(l, m)
    requires after == words[e := Word(LOCK, LOCK)][l := Word(words[l].left, LOCK)][m := Word(LOCK, words[m].right)]
                           [l := Word(words[l].left, m)][m := Word(l, words[m].right)][e := Word(END, END)]
    ensures after == C.Bridged(words, e)
  {
    var w := C.Bridged(words, e);
    forall x | 0 <= x < |words| ensures after[x] == w[x] {}
  }

  // ---- linkHead ----

  /** linkHead puts x at the head of the list of t. */
  lemma PutsAtHead(s: State, t: int, rows: seq<seq<int>>, x: int, isNew: bool, spare: int) returns (k: nat, r: State)
    requires InLink(s, t, x, isNew, LinkStore, spare) && In(s, x) && Spells(s, rows) && C.Loose(rows, x)
    ensures r == On(s, t, k) && Alone(s, r, t) && r.threads[t] == Linked(isNew, spare)
    ensures Spells(r, rows[t := [x] + rows[t]])
  {
    var n, ends := |s.threads|, AllEnds(s);
    C.LaidOut(s.words, rows, n, ends);
    C.HeadedRep(s.words, rows, n, ends, t, x);
    if rows[t] != [] { C.LooseRow(rows, x, t); }
    k, r := Heads(s, t, x, isNew, spare);
    SpellsOn(s, r, t, C.Headed(s.words, x, s.head[t]),
             C.Ends(x, if s.head[t] == END then x else s.tail[t], s.freeHead[t]), Linked(isNew, spare),
             rows[t := [x] + rows[t]]);
  }

  /** The whole of a hit: an element that is not one of two at either end comes to the head of the
      list of t, and otherwise nothing happens. */
  lemma MovesElement(s: State, t: int, rows: seq<seq<int>>, u: int, i: int, e: int, spare: int)
    returns (k: nat, r: State)
    requires InUnlink(s, t, LoadTarget(e), spare) && Stands(s, rows, u, i, e)
    ensures r == On(s, t, k) && Alone(s, r, t) && r.threads[t] == Done(spare)
    ensures Spells(r, if 2 <= i <= |rows[u]| - 3 then Moved(rows, u, i, t) else rows)
  {
    if i == 0 || i == |rows[u]| - 1 {
      k := 1;
      r := StaysAtEnd(s, t, rows, u, i, e, spare);
    } else if i == 1 {
      k := 5;
      r := StaysSecond(s, t, rows, u, e, spare);
    } else if i == |rows[u]| - 2 {
      k := 7;
      r := StaysLastButOne(s, t, rows, u, i, e, spare);
    } else {
      var a := TakesOut(s, t, rows, u, i, e, spare);
      k, r := PutsAtHead(a, t, rows[u := Cut(rows[u], i)], e, false, spare);
      OnAgain(s, t, 9, k);
      AloneAgain(s, a, r, t);
      k := 9 + k;
    }
  }

  // ---- unlinkTail ----

  /** A thread without a spare element takes the last element x off its list; the step that detaches
      it is also the call of the index. */
  lemma TakesTail(s: State, t: int, rows: seq<seq<int>>, spare: int, x: int) returns (k: nat, a: State, r: State)
    requires Runs(s, t) && s.threads[t] == Thread(Pool(CheckFree), spare) && Spells(s, rows)
    requires rows[t] != [] && x == rows[t][|rows[t]| - 1] && rows[|s.threads| + t] == []
    ensures a == On(s, t, k) && a.threads[t] == Thread(Trim(TailDetach(x)), spare) && Runs(a, t)
    ensures r == Step(a, t, Go) && Alone(s, r, t) && r.threads[t] == Thread(Pool(Push(x)), spare) && In(r, x)
    ensures var rows' := rows[t := Cut(rows[t], |rows[t]| - 1)]; Spells(r, rows') && C.Loose(rows', x)
  {
    var n, ends := |s.threads|, AllEnds(s);
    C.LaidOut(s.words, rows, n, ends);
    C.TrimmedRep(s.words, rows, n, ends, t);
    assert ends[t] == C.EndsOf(rows, n, t);
    TailWord(s, t, rows, x);
    k, a := Cuts(s, t, spare, x);
    r := Store(a, t, x, Word(END, END), Pool(Push(x)));
    assert r == Step(a, t, Go);
    var e' := C.CutEnds(EndsAt(s, t), s.words[x].left);
    assert Comes(a, r, t, a.words[x := Word(END, END)], e', Thread(Pool(Push(x)), spare));
    AloneAgain(s, a, r, t);
    SpellsOn(s, r, t, C.Trimmed(s.words, x), e', Thread(Pool(Push(x)), spare), rows[t := Cut(rows[t], |rows[t]| - 1)]);
  }

  lemma TailWord(s: State, t: int, rows: seq<seq<int>>, x: int)
    requires Runs(s, t) && Spells(s, rows) && rows[t] != [] && x == rows[t][|rows[t]| - 1]
    ensures |s.words| <= END && In(s, x) && s.words[x].right == END && s.words[x].left != x && s.tail[t] == x
    ensures var p := s.words[x].left; p == END || (In(s, p) && s.words[p].left != LOCK && s.words[p].right == x)
  {
    var i := |rows[t]| - 1;
    StandsLinked(s, rows, t, i, x);
    C.LaidOut(s.words, rows, |s.threads|, AllEnds(s));
    assert AllEnds(s)[t] == C.EndsOf(rows, |s.threads|, t);
    if i > 0 {
      StandsLinked(s, rows, t, i - 1, rows[t][i - 1]);
      if i > 1 { LinkedOn(s, rows, t, i - 2, rows[t][i - 2]); }
    }
  }

  // ---- free lists ----

  /** insert and insertOrSet begin by taking an element off the free list of t. */
  lemma TakesSpare(s: State, t: int, rows: seq<seq<int>>, e: int) returns (r: State)
    requires Runs(s, t) && s.threads[t] == Thread(Pool(Idle), END) && Spells(s, rows)
    requires rows[|s.threads| + t] != [] && e == rows[|s.threads| + t][0]
    ensures Runs(Step(s, t, StartInsert), t) && r == On(Step(s, t, StartInsert), t, 2)
    ensures !Paused(Step(s, t, StartInsert).threads[t].pc)
    ensures Alone(s, r, t) && r.threads[t] == Thread(Pool(Probe), e) && In(r, e) && e != END
    ensures var rows' := rows[|s.threads| + t := Cut(rows[|s.threads| + t], 0)]; Spells(r, rows') && C.Loose(rows', e)
  {
    var n, ends := |s.threads|, AllEnds(s);
    C.LaidOut(s.words, rows, n, ends);
    C.PoppedRep(s.words, rows, n, ends, t);
    assert ends[t].free == s.freeHead[t];
    var a := Goto(s, t, Pool(Pop(s.freeHead[t])));
    assert a == Step(s, t, StartInsert);
    r := Pops(a, t, e);
    AloneAgain(s, a, r, t);
    SpellsOn(s, r, t, s.words, EndsAt(s, t).(free := s.words[e].right), Thread(Pool(Probe), e),
             rows[n + t := Cut(rows[n + t], 0)]);
  }

  lemma FreeLeft(s: State, t: int, rows: seq<seq<int>>)
    requires Runs(s, t) && Spells(s, rows)
    ensures s.freeHead[t] != END <==> rows[|s.threads| + t] != []
  {
    var n, ends := |s.threads|, AllEnds(s);
    C.LaidOut(s.words, rows, n, ends);
    assert ends[t] == C.EndsOf(rows, n, t);
    assert C.RowRep(s.words, rows, n, n + t);
    if rows[n + t] != [] { assert 0 <= rows[n + t][0] < |s.words|; }
  }

  /** Element x goes to the front of the free list of t. */
  lemma GivesSpare(s: State, t: int, rows: seq<seq<int>>, x: int) returns (r: State)
    requires Runs(s, t) && s.threads[t] == Thread(Pool(Push(x)), END) && Spells(s, rows) && In(s, x) && C.Loose(rows, x)
    ensures r == On(s, t, 2) && Alone(s, r, t) && r.threads[t] == Thread(Pool(Idle), END)
    ensures Spells(r, rows[|s.threads| + t := [x] + rows[|s.threads| + t]])
  {
    var n, ends := |s.threads|, AllEnds(s);
    C.LaidOut(s.words, rows, n, ends);
    C.PushedRep(s.words, rows, n, ends, t, x);
    r := Pushes(s, t, x);
    SpellsOn(s, r, t, s.words[x := Word(END, s.freeHead[t])], EndsAt(s, t).(free := x), Thread(Pool(Idle), END),
             rows[n + t := [x] + rows[n + t]]);
  }
}
