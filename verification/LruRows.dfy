/**
 The element chains of the cache as sequences: row t is the LRU list of thread t, head first,
 and row threads + t its free list.  Every list operation of src/LFLRUHashTable.h takes one
 element out of a row and puts it at the front of a row.
 */
module LruRows {

  ghost predicate InRow(rows: seq<seq<int>>, a: int, i: int) {
    0 <= a < |rows| && 0 <= i < |rows[a]|
  }

  /** No element is in two places. */
  ghost predicate Disjoint(rows: seq<seq<int>>) {
    forall a, i, b, j {:trigger rows[a][i], rows[b][j]} ::
      InRow(rows, a, i) && InRow(rows, b, j) && rows[a][i] == rows[b][j] ==> a == b && i == j
  }

  ghost predicate Somewhere(rows: seq<seq<int>>, x: int) {
    exists a :: 0 <= a < |rows| && x in rows[a]
  }

  /** The rows hold the elements below m, each in exactly one place. */
  ghost predicate Partition(rows: seq<seq<int>>, m: int) {
    Disjoint(rows) && forall x {:trigger Somewhere(rows, x)} :: 0 <= x < m <==> Somewhere(rows, x)
  }

  function Cut(s: seq<int>, i: int): seq<int>
    requires 0 <= i < |s|
  {
    s[..i] + s[i + 1..]
  }

  /** The i-th element of row a goes to the front of row b. */
  function Moved(rows: seq<seq<int>>, a: int, i: int, b: int): (r: seq<seq<int>>)
    requires 0 <= a < |rows| && 0 <= i < |rows[a]| && 0 <= b < |rows|
    ensures |r| == |rows|
  {
    var r := rows[a := Cut(rows[a], i)];
    r[b := [rows[a][i]] + r[b]]
  }

  /** Where the element at position j of row c was before the move. */
  function Origin(a: int, i: int, b: int, c: int, j: int): (int, int) {
    if c == b && j == 0 then (a, i)
    else
      var j' := if c == b then j - 1 else j;
      (c, if c == a && j' >= i then j' + 1 else j')
  }

  /** Where the element at position j of row c goes. */
  function Goes(a: int, i: int, b: int, c: int, j: int): (int, int) {
    if c == a && j == i then (b, 0)
    else
      var j' := if c == a && j > i then j - 1 else j;
      (c, if c == b then j' + 1 else j')
  }

  lemma MovedFrom(rows: seq<seq<int>>, a: int, i: int, b: int, c: int, j: int)
    requires InRow(rows, a, i) && 0 <= b < |rows| && InRow(Moved(rows, a, i, b), c, j)
    ensures var o := Origin(a, i, b, c, j);
            InRow(rows, o.0, o.1) && Moved(rows, a, i, b)[c][j] == rows[o.0][o.1] && Goes(a, i, b, o.0, o.1) == (c, j)
  {}

  lemma MovedTo(rows: seq<seq<int>>, a: int, i: int, b: int, c: int, j: int)
    requires InRow(rows, a, i) && 0 <= b < |rows| && InRow(rows, c, j)
    ensures var d := Goes(a, i, b, c, j);
            InRow(Moved(rows, a, i, b), d.0, d.1) && Moved(rows, a, i, b)[d.0][d.1] == rows[c][j]
  {}

  lemma MovedApart(rows: seq<seq<int>>, a: int, i: int, b: int)
    requires Disjoint(rows) && InRow(rows, a, i) && 0 <= b < |rows|
    ensures Disjoint(Moved(rows, a, i, b))
  {
    var r := Moved(rows, a, i, b);
    forall c, j, d, l | InRow(r, c, j) && InRow(r, d, l) && r[c][j] == r[d][l] ensures c == d && j == l {
      MovedFrom(rows, a, i, b, c, j);
      MovedFrom(rows, a, i, b, d, l);
      var o, u := Origin(a, i, b, c, j), Origin(a, i, b, d, l);
      assert rows[o.0][o.1] == rows[u.0][u.1];
    }
  }

  /** Exactly the moved element changes its row. */
  lemma MovedMembers(rows: seq<seq<int>>, a: int, i: int, b: int, c: int, x: int)
    requires Disjoint(rows) && InRow(rows, a, i) && 0 <= b < |rows| && 0 <= c < |rows|
    ensures x in Moved(rows, a, i, b)[c] <==> if x == rows[a][i] then c == b else x in rows[c]
  {
    var r := Moved(rows, a, i, b);
    if x in r[c] {
      var j :| 0 <= j < |r[c]| && r[c][j] == x;
      MovedFrom(rows, a, i, b, c, j);
      var o := Origin(a, i, b, c, j);
      assert rows[o.0][o.1] == x;
    }
    if x != rows[a][i] && x in rows[c] {
      var j :| 0 <= j < |rows[c]| && rows[c][j] == x;
      MovedTo(rows, a, i, b, c, j);
      var d := Goes(a, i, b, c, j);
      assert r[d.0][d.1] == x;
    }
    if x == rows[a][i] && c == b { assert r[b][0] == x; }
  }

  lemma MovedPartition(rows: seq<seq<int>>, a: int, i: int, b: int, m: int)
    requires Partition(rows, m) && InRow(rows, a, i) && 0 <= b < |rows|
    ensures Partition(Moved(rows, a, i, b), m)
  {
    var r := Moved(rows, a, i, b);
    MovedApart(rows, a, i, b);
    forall x ensures Somewhere(r, x) <==> Somewhere(rows, x) {
      if Somewhere(r, x) {
        var c :| 0 <= c < |r| && x in r[c];
        MovedMembers(rows, a, i, b, c, x);
        if x == rows[a][i] { assert x in rows[a]; } else { assert x in rows[c]; }
      }
      if Somewhere(rows, x) {
        var c :| 0 <= c < |rows| && x in rows[c];
        MovedMembers(rows, a, i, b, c, x);
        MovedMembers(rows, a, i, b, b, x);
        if x == rows[a][i] { assert x in r[b]; } else { assert x in r[c]; }
      }
    }
  }

  // ---- the place of an element ----

  datatype Place = Place(row: int, pos: int)

  ghost predicate Holds(rows: seq<seq<int>>, p: Place, x: int) {
    InRow(rows, p.row, p.pos) && rows[p.row][p.pos] == x
  }

  ghost function PlaceOf(rows: seq<seq<int>>, x: int): (p: Place)
    requires Somewhere(rows, x)
    ensures Holds(rows, p, x)
  {
    var a :| 0 <= a < |rows| && x in rows[a];
    var i :| 0 <= i < |rows[a]| && rows[a][i] == x;
    var p := Place(a, i);
    p
  }

  lemma PlaceIs(rows: seq<seq<int>>, p: Place, x: int)
    requires Disjoint(rows) && Holds(rows, p, x)
    ensures Somewhere(rows, x) && PlaceOf(rows, x) == p
  {
    assert x in rows[p.row];
    var q := PlaceOf(rows, x);
    assert rows[q.row][q.pos] == rows[p.row][p.pos];
  }

  lemma MovedPlace(rows: seq<seq<int>>, a: int, i: int, b: int, p: Place, x: int)
    requires Disjoint(rows) && InRow(rows, a, i) && 0 <= b < |rows| && Holds(rows, p, x)
    ensures var d := Goes(a, i, b, p.row, p.pos);
            Holds(Moved(rows, a, i, b), Place(d.0, d.1), x)
            && Somewhere(Moved(rows, a, i, b), x) && PlaceOf(Moved(rows, a, i, b), x) == Place(d.0, d.1)
  {
    MovedTo(rows, a, i, b, p.row, p.pos);
    MovedApart(rows, a, i, b);
    var d := Goes(a, i, b, p.row, p.pos);
    PlaceIs(Moved(rows, a, i, b), Place(d.0, d.1), x);
  }
}
