/**
 How the LRU lists and free lists are laid out in link words when no thread is at work on them,
 and what the link updates of src/LFLRUHashTable.h do to that layout.
 */
module LinkChains {
  import LinkWords
  import opened LruRows
  import opened Sealing

  type Word = LinkWords.Word

  const END := LinkWords.END

  /** The list fields of ThreadLRUList. */
  datatype Ends = Ends(head: int, tail: int, free: int)

  /** The ends once the last element, whose left neighbour is p, is cut off. */
  function CutEnds(e: Ends, p: int): Ends { Ends(if p == END then END else e.head, p, e.free) }

  function First(row: seq<int>): int { if row == [] then END else row[0] }
  function Last(row: seq<int>): int { if row == [] then END else row[|row| - 1] }

  function Prev(row: seq<int>, i: int): int
    requires 0 <= i < |row|
  {
    if i == 0 then END else row[i - 1]
  }

  function Next(row: seq<int>, i: int): int
    requires 0 <= i < |row|
  {
    if i + 1 == |row| then END else row[i + 1]
  }

  ghost predicate Within(row: seq<int>, n: int) {
    forall i {:trigger row[i]} :: 0 <= i < |row| ==> 0 <= row[i] < n
  }

  /** A doubly linked list, head first. */
  ghost predicate Chain(words: seq<Word>, row: seq<int>) {
    && Within(row, |words|)
    && forall i {:trigger words[row[i]]} :: 0 <= i < |row| ==>
         words[row[i]] == LinkWords.Word(Prev(row, i), Next(row, i))
  }

  /** A free list is linked to the right only. */
  ghost predicate Pooled(words: seq<Word>, row: seq<int>) {
    && Within(row, |words|)
    && forall i {:trigger words[row[i]]} :: 0 <= i < |row| ==> words[row[i]] == LinkWords.Word(END, Next(row, i))
  }

  ghost predicate RowRep(words: seq<Word>, rows: seq<seq<int>>, threads: int, a: int)
    requires 0 <= a < |rows|
  {
    if a < threads then Chain(words, rows[a]) else Pooled(words, rows[a])
  }

  function EndsOf(rows: seq<seq<int>>, threads: int, t: int): Ends
    requires 0 <= t < threads && |rows| == 2 * threads
  {
    Ends(First(rows[t]), Last(rows[t]), First(rows[threads + t]))
  }

  ghost predicate Rep(words: seq<Word>, rows: seq<seq<int>>, threads: int, ends: seq<Ends>) {
    && |rows| == 2 * threads && |ends| == threads && |words| <= END && Disjoint(rows)
    && (forall a {:trigger RowRep(words, rows, threads, a)} :: 0 <= a < |rows| ==> RowRep(words, rows, threads, a))
    && forall t {:trigger ends[t]} :: 0 <= t < threads ==> ends[t] == EndsOf(rows, threads, t)
  }

  /** `Rep` for callers that only pass it on: it is unfolded where `LaidOut` calls for it. */
  ghost predicate Laid(words: seq<Word>, rows: seq<seq<int>>, threads: int, ends: seq<Ends>) {
    forall u {:trigger Look(u)} :: Look(u) ==> Rep(words, rows, threads, ends)
  }

  lemma LaidOut(words: seq<Word>, rows: seq<seq<int>>, threads: int, ends: seq<Ends>)
    ensures Laid(words, rows, threads, ends) <==> Rep(words, rows, threads, ends)
  {
    assert Look(0);
  }

  // ---- changing one row ----

  /** The words of all rows but a are as before. */
  ghost predicate OthersKept(words: seq<Word>, words': seq<Word>, rows: seq<seq<int>>, a: int) {
    && |words'| == |words|
    && forall b, j {:trigger rows[b][j]} :: InRow(rows, b, j) && b != a && 0 <= rows[b][j] < |words| ==>
         words'[rows[b][j]] == words[rows[b][j]]
  }

  lemma RepReplace(words: seq<Word>, words': seq<Word>, rows: seq<seq<int>>, rows': seq<seq<int>>, threads: int,
                   ends: seq<Ends>, ends': seq<Ends>, a: int, row: seq<int>)
    requires Rep(words, rows, threads, ends) && 0 <= a < |rows| && rows' == rows[a := row]
    requires OthersKept(words, words', rows, a) && RowRep(words', rows', threads, a) && Disjoint(rows')
    requires var t := if a < threads then a else a - threads; ends' == ends[t := EndsOf(rows', threads, t)]
    ensures Rep(words', rows', threads, ends')
  {
    forall b | 0 <= b < |rows'| ensures RowRep(words', rows', threads, b) {
      if b != a {
        assert RowRep(words, rows, threads, b);
        KeptRow(words, words', rows, threads, a, b);
      }
    }
    forall u | 0 <= u < threads ensures ends'[u] == EndsOf(rows', threads, u) {
      assert ends[u] == EndsOf(rows, threads, u);
    }
  }

  lemma KeptRow(words: seq<Word>, words': seq<Word>, rows: seq<seq<int>>, threads: int, a: int, b: int)
    requires OthersKept(words, words', rows, a) && 0 <= b < |rows| && b != a && RowRep(words, rows, threads, b)
    ensures RowRep(words', rows, threads, b)
  {
    var row := rows[b];
    forall i | 0 <= i < |row| ensures words'[row[i]] == words[row[i]] {
      assert InRow(rows, b, i);
    }
  }

  lemma DisjointFrom(rows: seq<seq<int>>, a: int, i: int, b: int, j: int)
    requires Disjoint(rows) && InRow(rows, a, i) && InRow(rows, b, j) && (a != b || i != j)
    ensures rows[a][i] != rows[b][j]
  {}

  // ---- taking an element out of a row ----

  ghost predicate Loose(rows: seq<seq<int>>, x: int) {
    forall a, i {:trigger rows[a][i]} :: InRow(rows, a, i) ==> rows[a][i] != x
  }

  lemma CutApart(rows: seq<seq<int>>, a: int, i: int)
    requires Disjoint(rows) && InRow(rows, a, i)
    ensures Disjoint(rows[a := Cut(rows[a], i)]) && Loose(rows[a := Cut(rows[a], i)], rows[a][i])
  {
    var r := rows[a := Cut(rows[a], i)];
    forall c, j, d, l | InRow(r, c, j) && InRow(r, d, l) && r[c][j] == r[d][l] ensures c == d && j == l {
      CutAt(rows, a, i, c, j);
      CutAt(rows, a, i, d, l);
      assert rows[c][CutFrom(a, i, c, j)] == rows[d][CutFrom(a, i, d, l)];
    }
    forall c, j | InRow(r, c, j) ensures r[c][j] != rows[a][i] {
      CutAt(rows, a, i, c, j);
      DisjointFrom(rows, a, i, c, CutFrom(a, i, c, j));
    }
  }

  function CutFrom(a: int, i: int, c: int, j: int): int { if c == a && j >= i then j + 1 else j }

  lemma CutAt(rows: seq<seq<int>>, a: int, i: int, c: int, j: int)
    requires InRow(rows, a, i) && InRow(rows[a := Cut(rows[a], i)], c, j)
    ensures InRow(rows, c, CutFrom(a, i, c, j)) && rows[a := Cut(rows[a], i)][c][j] == rows[c][CutFrom(a, i, c, j)]
  {}

  lemma PutApart(rows: seq<seq<int>>, b: int, x: int)
    requires Disjoint(rows) && Loose(rows, x) && 0 <= b < |rows|
    ensures Disjoint(rows[b := [x] + rows[b]])
  {
    var r := rows[b := [x] + rows[b]];
    forall c, j, d, l | InRow(r, c, j) && InRow(r, d, l) && r[c][j] == r[d][l] ensures c == d && j == l {
      assert c == b || r[c] == rows[c];
      assert d == b || r[d] == rows[d];
      assert c == b && j > 0 ==> r[c][j] == rows[c][j - 1];
      assert d == b && l > 0 ==> r[d][l] == rows[d][l - 1];
    }
  }

  /** The words after unlinkElement: x leaves, its neighbours meet. */
  function Bridged(words: seq<Word>, x: int): (r: seq<Word>)
    requires 0 <= x < |words| && 0 <= words[x].left < |words| && 0 <= words[x].right < |words|
    ensures |r| == |words|
  {
    var l, m := words[x].left, words[x].right;
    var w := words[l := words[l].(right := m)];
    w[m := w[m].(left := l)][x := LinkWords.Word(END, END)]
  }

  lemma BridgedChain(words: seq<Word>, row: seq<int>, i: int)
    requires Chain(words, row) && Disjoint([row]) && 0 < i < |row| - 1
    ensures 0 <= row[i] < |words| && words[row[i]] == LinkWords.Word(row[i - 1], row[i + 1])
    ensures 0 <= row[i - 1] < |words| && 0 <= row[i + 1] < |words|
    ensures Chain(Bridged(words, row[i]), Cut(row, i))
  {
    var rows := [row];
    var x, l, m := row[i], row[i - 1], row[i + 1];
    assert words[row[i]].left == l && words[row[i]].right == m;
    var w, r := Bridged(words, x), Cut(row, i);
    DisjointFrom(rows, 0, i - 1, 0, i);
    DisjointFrom(rows, 0, i, 0, i + 1);
    DisjointFrom(rows, 0, i - 1, 0, i + 1);
    forall j | 0 <= j < |r| ensures 0 <= r[j] < |w| && w[r[j]] == LinkWords.Word(Prev(r, j), Next(r, j)) {
      BridgedWord(words, row, i, j);
    }
  }

  /** The word at position j once position i is bridged. */
  lemma BridgedWord(words: seq<Word>, row: seq<int>, i: int, j: int)
    requires Chain(words, row) && Disjoint([row]) && 0 < i < |row| - 1 && 0 <= j < |row| - 1
    requires 0 <= row[i] < |words| && words[row[i]] == LinkWords.Word(row[i - 1], row[i + 1])
    requires 0 <= row[i - 1] < |words| && 0 <= row[i + 1] < |words|
    requires row[i - 1] != row[i] && row[i] != row[i + 1] && row[i - 1] != row[i + 1]
    ensures var w, r := Bridged(words, row[i]), Cut(row, i);
            0 <= r[j] < |w| && w[r[j]] == LinkWords.Word(Prev(r, j), Next(r, j))
  {
    if j == i - 1 {
      assert words[row[i - 1]] == LinkWords.Word(Prev(row, i - 1), Next(row, i - 1));
    } else if j == i {
      assert words[row[i + 1]] == LinkWords.Word(Prev(row, i + 1), Next(row, i + 1));
    } else {
      var k := if j < i then j else j + 1;
      assert words[row[k]] == LinkWords.Word(Prev(row, k), Next(row, k));
      Elsewhere(row, k, i);
      Elsewhere(row, k, i - 1);
      Elsewhere(row, k, i + 1);
    }
  }

  lemma Elsewhere(row: seq<int>, k: int, l: int)
    requires Disjoint([row]) && 0 <= k < |row| && 0 <= l < |row| && k != l
    ensures row[k] != row[l]
  {
    DisjointFrom([row], 0, k, 0, l);
  }

  lemma RowApart(rows: seq<seq<int>>, a: int)
    requires Disjoint(rows) && 0 <= a < |rows|
    ensures Disjoint([rows[a]])
  {
    var r := [rows[a]];
    forall c, j, d, l | InRow(r, c, j) && InRow(r, d, l) && r[c][j] == r[d][l] ensures c == d && j == l {
      assert rows[a][j] == rows[a][l];
    }
  }

  lemma BridgedOthers(words: seq<Word>, rows: seq<seq<int>>, a: int, i: int)
    requires Disjoint(rows) && InRow(rows, a, i) && 0 < i < |rows[a]| - 1 && Chain(words, rows[a])
    ensures 0 <= rows[a][i] < |words| && words[rows[a][i]] == LinkWords.Word(rows[a][i - 1], rows[a][i + 1])
    ensures 0 <= rows[a][i - 1] < |words| && 0 <= rows[a][i + 1] < |words|
    ensures OthersKept(words, Bridged(words, rows[a][i]), rows, a)
  {
    assert words[rows[a][i]].left == rows[a][i - 1];
    var w := Bridged(words, rows[a][i]);
    forall b, j | InRow(rows, b, j) && b != a && 0 <= rows[b][j] < |words| ensures w[rows[b][j]] == words[rows[b][j]] {
      DisjointFrom(rows, a, i, b, j);
      DisjointFrom(rows, a, i - 1, b, j);
      DisjointFrom(rows, a, i + 1, b, j);
    }
  }

  /** unlinkElement of an element that is neither first nor last. */
  lemma BridgedRep(words: seq<Word>, rows: seq<seq<int>>, threads: int, ends: seq<Ends>, a: int, i: int)
    requires Rep(words, rows, threads, ends) && InRow(rows, a, i) && a < threads && 0 < i < |rows[a]| - 1
    ensures var x := rows[a][i];
            && 0 <= x < |words| && words[x] == LinkWords.Word(rows[a][i - 1], rows[a][i + 1])
            && 0 <= rows[a][i - 1] < |words| && 0 <= rows[a][i + 1] < |words|
            && Rep(Bridged(words, x), rows[a := Cut(rows[a], i)], threads, ends)
            && Loose(rows[a := Cut(rows[a], i)], x)
  {
    assert RowRep(words, rows, threads, a);
    RowApart(rows, a);
    BridgedChain(words, rows[a], i);
    BridgedOthers(words, rows, a, i);
    CutApart(rows, a, i);
    var rows' := rows[a := Cut(rows[a], i)];
    assert ends[a] == EndsOf(rows, threads, a);
    assert ends == ends[a := EndsOf(rows', threads, a)];
    RepReplace(words, Bridged(words, rows[a][i]), rows, rows', threads, ends, ends, a, Cut(rows[a], i));
  }

  // ---- putting an element at the head of a list ----

  /** linkHead: x gets the old head to its right. */
  function Headed(words: seq<Word>, x: int, head: int): (r: seq<Word>)
    requires 0 <= x < |words| && (head == END || 0 <= head < |words|)
    ensures |r| == |words|
  {
    var w := words[x := LinkWords.Word(END, head)];
    if head == END then w else w[head := w[head].(left := x)]
  }

  lemma HeadedChain(words: seq<Word>, row: seq<int>, x: int)
    requires Chain(words, row) && Disjoint([row]) && 0 <= x < |words| <= END && x !in row
    ensures First(row) == END || 0 <= First(row) < |words|
    ensures Chain(Headed(words, x, First(row)), [x] + row)
  {
    if row != [] { assert 0 <= row[0] < |words|; }
    var w, r := Headed(words, x, First(row)), [x] + row;
    forall j | 0 <= j < |r| ensures 0 <= r[j] < |w| && w[r[j]] == LinkWords.Word(Prev(r, j), Next(r, j)) {
      if j > 0 {
        assert r[j] == row[j - 1];
        assert words[row[j - 1]] == LinkWords.Word(Prev(row, j - 1), Next(row, j - 1));
        if j > 1 { DisjointFrom([row], 0, 0, 0, j - 1); }
      }
    }
  }

  lemma LooseRow(rows: seq<seq<int>>, x: int, a: int)
    requires Loose(rows, x) && 0 <= a < |rows|
    ensures x !in rows[a]
  {
    forall i | 0 <= i < |rows[a]| ensures rows[a][i] != x { assert InRow(rows, a, i); }
  }

  lemma HeadedRep(words: seq<Word>, rows: seq<seq<int>>, threads: int, ends: seq<Ends>, t: int, x: int)
    requires Rep(words, rows, threads, ends) && 0 <= t < threads && Loose(rows, x) && 0 <= x < |words|
    ensures ends[t] == EndsOf(rows, threads, t) && (ends[t].head == END || 0 <= ends[t].head < |words|)
    ensures var ends' := ends[t := ends[t].(head := x, tail := if ends[t].head == END then x else ends[t].tail)];
            Rep(Headed(words, x, ends[t].head), rows[t := [x] + rows[t]], threads, ends')
  {
    assert RowRep(words, rows, threads, t);
    RowApart(rows, t);
    LooseRow(rows, x, t);
    HeadedChain(words, rows[t], x);
    PutApart(rows, t, x);
    var w := Headed(words, x, ends[t].head);
    HeadedOthers(words, rows, t, x);
    var rows' := rows[t := [x] + rows[t]];
    assert ends[t] == EndsOf(rows, threads, t);
    if rows[t] != [] { assert 0 <= rows[t][0] < |words|; }
    var ends' := ends[t := ends[t].(head := x, tail := if ends[t].head == END then x else ends[t].tail)];
    assert ends' == ends[t := EndsOf(rows', threads, t)];
    RepReplace(words, w, rows, rows', threads, ends, ends', t, [x] + rows[t]);
  }

  lemma HeadedOthers(words: seq<Word>, rows: seq<seq<int>>, a: int, x: int)
    requires Disjoint(rows) && 0 <= a < |rows| && Within(rows[a], |words|) && Loose(rows, x) && 0 <= x < |words| <= END
    ensures First(rows[a]) == END || 0 <= First(rows[a]) < |words|
    ensures OthersKept(words, Headed(words, x, First(rows[a])), rows, a)
  {
    if rows[a] != [] { assert 0 <= rows[a][0] < |words|; }
    var w := Headed(words, x, First(rows[a]));
    forall b, j | InRow(rows, b, j) && b != a && 0 <= rows[b][j] < |words| ensures w[rows[b][j]] == words[rows[b][j]] {
      if rows[a] != [] { DisjointFrom(rows, a, 0, b, j); }
    }
  }

  // ---- taking the last element off a list ----

  /** unlinkTail. */
  function Trimmed(words: seq<Word>, x: int): (r: seq<Word>)
    requires 0 <= x < |words| && (words[x].left == END || 0 <= words[x].left < |words|)
    ensures |r| == |words|
  {
    var l := words[x].left;
    var w := if l == END then words else words[l := words[l].(right := END)];
    w[x := LinkWords.Word(END, END)]
  }

  lemma TrimmedChain(words: seq<Word>, row: seq<int>)
    requires Chain(words, row) && Disjoint([row]) && row != [] && |words| <= END
    ensures var x := row[|row| - 1];
            && 0 <= x < |words|
            && words[x] == LinkWords.Word(Prev(row, |row| - 1), END)
            && (words[x].left == END || 0 <= words[x].left < |words|)
            && Chain(Trimmed(words, x), Cut(row, |row| - 1))
  {
    var i := |row| - 1;
    var x := row[i];
    assert words[row[i]] == LinkWords.Word(Prev(row, i), END);
    if i > 0 { assert 0 <= row[i - 1] < |words|; }
    var w, r := Trimmed(words, x), Cut(row, i);
    forall j | 0 <= j < |r| ensures 0 <= r[j] < |w| && w[r[j]] == LinkWords.Word(Prev(r, j), Next(r, j)) {
      assert r[j] == row[j];
      assert words[row[j]] == LinkWords.Word(Prev(row, j), Next(row, j));
      DisjointFrom([row], 0, i, 0, j);
      if j != i - 1 { DisjointFrom([row], 0, i - 1, 0, j); }
    }
  }

  lemma TrimmedOthers(words: seq<Word>, rows: seq<seq<int>>, a: int)
    requires Disjoint(rows) && 0 <= a < |rows| && rows[a] != [] && Chain(words, rows[a]) && |words| <= END
    requires var x := rows[a][|rows[a]| - 1];
             0 <= x < |words| && words[x].left == Prev(rows[a], |rows[a]| - 1)
               && (words[x].left == END || 0 <= words[x].left < |words|)
    ensures OthersKept(words, Trimmed(words, rows[a][|rows[a]| - 1]), rows, a)
  {
    var i := |rows[a]| - 1;
    var w := Trimmed(words, rows[a][i]);
    forall b, j | InRow(rows, b, j) && b != a && 0 <= rows[b][j] < |words| ensures w[rows[b][j]] == words[rows[b][j]] {
      DisjointFrom(rows, a, i, b, j);
      if i > 0 { DisjointFrom(rows, a, i - 1, b, j); }
    }
  }

  /** unlinkTail of a list that is not empty. */
  lemma TrimmedRep(words: seq<Word>, rows: seq<seq<int>>, threads: int, ends: seq<Ends>, t: int)
    requires Rep(words, rows, threads, ends) && 0 <= t < threads && rows[t] != []
    ensures var x := ends[t].tail;
            && x == rows[t][|rows[t]| - 1] && 0 <= x < |words|
            && words[x].right == END && (words[x].left == END
                                         || (0 <= words[x].left < |words| && words[words[x].left].right == x))
            && var ends' := ends[t := CutEnds(ends[t], words[x].left)];
               var rows' := rows[t := Cut(rows[t], |rows[t]| - 1)];
               Rep(Trimmed(words, x), rows', threads, ends') && Loose(rows', x)
  {
    assert RowRep(words, rows, threads, t);
    RowApart(rows, t);
    var row, i := rows[t], |rows[t]| - 1;
    TrimmedChain(words, row);
    TrimmedOthers(words, rows, t);
    CutApart(rows, t, i);
    var x := row[i];
    if i > 0 {
      assert 0 <= row[i - 1] < |words|;
      assert words[row[i - 1]].right == row[i];
    }
    assert ends[t] == EndsOf(rows, threads, t);
    var rows' := rows[t := Cut(row, i)];
    var ends' := ends[t := CutEnds(ends[t], words[x].left)];
    assert ends' == ends[t := EndsOf(rows', threads, t)];
    RepReplace(words, Trimmed(words, x), rows, rows', threads, ends, ends', t, Cut(row, i));
  }

  // ---- free lists ----

  lemma PoolPopped(words: seq<Word>, row: seq<int>)
    requires Pooled(words, row) && row != []
    ensures Pooled(words, Cut(row, 0)) && 0 <= row[0] < |words| && words[row[0]].right == First(Cut(row, 0))
  {
    var r := Cut(row, 0);
    assert words[row[0]].right == Next(row, 0);
    forall j | 0 <= j < |r| ensures 0 <= r[j] < |words| && words[r[j]] == LinkWords.Word(END, Next(r, j)) {
      assert r[j] == row[j + 1];
      assert words[row[j + 1]] == LinkWords.Word(END, Next(row, j + 1));
    }
  }

  /** Taking the first element of a free list changes no word. */
  lemma PoppedRep(words: seq<Word>, rows: seq<seq<int>>, threads: int, ends: seq<Ends>, t: int)
    requires Rep(words, rows, threads, ends) && 0 <= t < threads && rows[threads + t] != []
    ensures var e := ends[t].free;
            && e == rows[threads + t][0] && 0 <= e < |words|
            && var rows' := rows[threads + t := Cut(rows[threads + t], 0)];
               Rep(words, rows', threads, ends[t := ends[t].(free := words[e].right)]) && Loose(rows', e)
  {
    var a := threads + t;
    assert RowRep(words, rows, threads, a);
    PoolPopped(words, rows[a]);
    CutApart(rows, a, 0);
    assert ends[t] == EndsOf(rows, threads, t);
    var rows', ends' := rows[a := Cut(rows[a], 0)], ends[t := ends[t].(free := words[ends[t].free].right)];
    assert ends' == ends[t := EndsOf(rows', threads, t)];
    RepReplace(words, words, rows, rows', threads, ends, ends', a, Cut(rows[a], 0));
  }

  lemma PoolPushed(words: seq<Word>, row: seq<int>, x: int)
    requires Pooled(words, row) && 0 <= x < |words| && x !in row
    ensures Pooled(words[x := LinkWords.Word(END, First(row))], [x] + row)
  {
    var w, r := words[x := LinkWords.Word(END, First(row))], [x] + row;
    forall j | 0 <= j < |r| ensures 0 <= r[j] < |w| && w[r[j]] == LinkWords.Word(END, Next(r, j)) {
      if j > 0 {
        assert r[j] == row[j - 1];
        assert words[row[j - 1]] == LinkWords.Word(END, Next(row, j - 1));
      }
    }
  }

  lemma PushedRep(words: seq<Word>, rows: seq<seq<int>>, threads: int, ends: seq<Ends>, t: int, x: int)
    requires Rep(words, rows, threads, ends) && 0 <= t < threads && Loose(rows, x) && 0 <= x < |words|
    ensures Rep(words[x := LinkWords.Word(END, ends[t].free)], rows[threads + t := [x] + rows[threads + t]], threads,
                ends[t := ends[t].(free := x)])
  {
    var a := threads + t;
    assert RowRep(words, rows, threads, a);
    LooseRow(rows, x, a);
    PoolPushed(words, rows[a], x);
    PutApart(rows, a, x);
    assert ends[t] == EndsOf(rows, threads, t);
    var w, rows', ends' := words[x := LinkWords.Word(END, ends[t].free)], rows[a := [x] + rows[a]],
      ends[t := ends[t].(free := x)];
    assert ends' == ends[t := EndsOf(rows', threads, t)];
    RepReplace(words, w, rows, rows', threads, ends, ends', a, [x] + rows[a]);
  }
}
