/**
 The open-addressed index of src/LFLRUHashTable.h, run by one thread.

 An operation starts at the home slot of its key and takes one slot after the other, in ring
 order, until `Stop` holds of the contents seen so far; `Finish` then gives the contents it
 writes back.  Keys and values are only hashed, compared and copied, so both are integers here.
 */
module Index {

  const FREE := 0xFFFF_FFFF  // HASH_FREE_MARK
  const LOCK := 0xFFFF_FFFE  // HASH_LOCK_MARK

  datatype Elem = Elem(key: int, val: int)

  /** slots is elementLinks, elems the key and value part of elementStorage. */
  datatype Table = Table(slots: seq<int>, elems: seq<Elem>)

  /** hasherFunc(key) % hashSize for a table of n slots. */
  ghost predicate Homes(home: int -> int, n: int) {
    forall k :: 0 <= home(k) < n
  }

  /** The i-th slot from start in ring order. */
  function At(start: int, i: int, n: int): int {
    if start + i < n then start + i else start + i - n
  }

  /** insert and insertOrSet bring the element e they took from the free list;
      Remove(e) is removeFromHashPos. */
  datatype Op =
    | Get(k: int)
    | Set(k: int, v: int)
    | Insert(k: int, v: int, e: int)
    | InsertOrSet(k: int, v: int, e: int)
    | Remove(e: int)

  datatype Res = Got(v: int) | NotFound | Ok | Refused

  predicate Matches(elems: seq<Elem>, k: int, x: int) {
    x == FREE || (0 <= x < |elems| && elems[x].key == k)
  }

  /** The position of the first free slot or slot with key k, or |cs|. */
  function Probe(elems: seq<Elem>, k: int, cs: seq<int>): (d: nat)
    ensures d <= |cs|
    ensures d < |cs| ==> Matches(elems, k, cs[d])
    ensures forall i :: 0 <= i < d ==> !Matches(elems, k, cs[i])
  {
    if cs == [] then 0
    else if Matches(elems, k, cs[0]) then 0
    else 1 + Probe(elems, k, cs[1..])
  }

  predicate Hit(elems: seq<Elem>, k: int, cs: seq<int>) {
    var d := Probe(elems, k, cs);
    d < |cs| && cs[d] != FREE
  }

  /** The operation needs no slot beyond those with contents cs. */
  predicate Stop(elems: seq<Elem>, op: Op, k: int, cs: seq<int>) {
    var d := Probe(elems, k, cs);
    d < |cs| && (op.Remove? && cs[d] != FREE ==> d < |cs| - 1 && cs[|cs| - 1] == FREE)
  }

  /** The walk after a removal: the element at position i moves into the hole when its home
      is not beyond the hole; the hole left at the end becomes free. */
  function Shift(elems: seq<Elem>, home: int -> int, start: int, n: int, cs: seq<int>, hole: nat, i: nat): (r: seq<int>)
    requires hole < i && hole < |cs|
    ensures |r| == |cs|
    decreases |cs| - i
  {
    if i >= |cs| || !(0 <= cs[i] < |elems|) then cs[hole := FREE]
    else if home(elems[cs[i]].key) <= At(start, hole, n) then
      Shift(elems, home, start, n, cs[hole := cs[i]], i, i + 1)
    else
      Shift(elems, home, start, n, cs, hole, i + 1)
  }

  /** What an operation that has seen cs writes back: slot contents, one element, result. */
  datatype Outcome = Outcome(cs: seq<int>, x: int, elem: Elem, res: Res)

  const NONE := -1

  function Finish(elems: seq<Elem>, home: int -> int, op: Op, k: int, start: int, n: int, cs: seq<int>): (r: Outcome)
    requires Probe(elems, k, cs) < |cs|
    ensures |r.cs| == |cs|
  {
    var d := Probe(elems, k, cs);
    var nothing := Elem(0, 0);
    if cs[d] != FREE then
      var found := elems[cs[d]];
      match op
      case Get(_) => Outcome(cs, NONE, nothing, Got(found.val))
      case Set(_, v) => Outcome(cs, cs[d], found.(val := v), Ok)
      case Insert(_, _, _) => Outcome(cs, NONE, nothing, Refused)
      case InsertOrSet(_, v, _) => Outcome(cs, cs[d], found.(val := v), Refused)
      case Remove(_) => Outcome(Shift(elems, home, start, n, cs, d, d + 1), NONE, nothing, Ok)
    else
      match op
      case Get(_) => Outcome(cs, NONE, nothing, NotFound)
      case Set(_, _) => Outcome(cs, NONE, nothing, Refused)
      case Insert(_, v, e) => Outcome(cs[d := e], e, Elem(k, v), Ok)
      case InsertOrSet(_, v, e) => Outcome(cs[d := e], e, Elem(k, v), Ok)
      case Remove(_) => Outcome(cs, NONE, nothing, Refused)
  }

  /** The contents of m slots from start. */
  function Contents(slots: seq<int>, start: int, m: nat): (cs: seq<int>)
    requires 0 <= start < |slots| && m <= |slots|
    ensures |cs| == m
    ensures forall i {:trigger cs[i]} :: 0 <= i < m ==> cs[i] == slots[At(start, i, |slots|)]
  {
    seq(m, i requires 0 <= i < m => slots[At(start, i, |slots|)])
  }

  /** The slots with cs written back from start. */
  function WriteBack(slots: seq<int>, start: int, cs: seq<int>): (r: seq<int>)
    requires 0 <= start < |slots| && |cs| <= |slots|
    ensures |r| == |slots|
    ensures forall p {:trigger r[p]} :: 0 <= p < |slots| ==>
              var i := if p >= start then p - start else p - start + |slots|;
              r[p] == if i < |cs| then cs[i] else slots[p]
  {
    seq(|slots|, p requires 0 <= p < |slots| =>
      var i := if p >= start then p - start else p - start + |slots|;
      if i < |cs| then cs[i] else slots[p])
  }

  /** The key an operation looks for. */
  function KeyOf(elems: seq<Elem>, op: Op): int {
    match op
    case Remove(e) => if 0 <= e < |elems| then elems[e].key else 0
    case _ => op.k
  }

  /** The number of slots the operation takes; the whole ring if it never stops. */
  function Need(t: Table, op: Op, k: int, start: int, m: nat): (r: nat)
    requires 0 <= start < |t.slots| && m <= |t.slots|
    ensures m <= r <= |t.slots|
    ensures r < |t.slots| ==> Stop(t.elems, op, k, Contents(t.slots, start, r))
    ensures forall j {:trigger Contents(t.slots, start, j)} :: m <= j < r ==>
              !Stop(t.elems, op, k, Contents(t.slots, start, j))
    decreases |t.slots| - m
  {
    if m == |t.slots| || Stop(t.elems, op, k, Contents(t.slots, start, m)) then m
    else Need(t, op, k, start, m + 1)
  }

  datatype Applied = Applied(t: Table, res: Res)

  /** The whole operation, in one go. */
  function Apply(t: Table, home: int -> int, op: Op): (r: Applied)
    requires 0 <= home(KeyOf(t.elems, op)) < |t.slots|
    ensures |r.t.slots| == |t.slots| && |r.t.elems| == |t.elems|
  {
    var k := KeyOf(t.elems, op);
    var start := home(k);
    var cs := Contents(t.slots, start, Need(t, op, k, start, 0));
    if !Stop(t.elems, op, k, cs) then Applied(t, Refused)
    else
      var o := Finish(t.elems, home, op, k, start, |t.slots|, cs);
      Applied(Table(WriteBack(t.slots, start, o.cs),
                    if 0 <= o.x < |t.elems| then t.elems[o.x := o.elem] else t.elems), o.res)
  }
}
