/**
 Strings of src/string.hpp over a heap: what constructing, copying, moving, assigning and
 destroying them does to their values and to the buffers they own.
 */
module SsoStrings {
  import opened SsoLayout

  /** The union of the two layouts: 23 bytes of text and the size byte, or a pointer and the packed
      size and capacity. */
  datatype Data = Small(text: seq<bv8>, last: bv8) | Large(ptr: int, size: Wide, cap: Wide)

  /** Live strings and live buffers; bad once something not live is freed. */
  datatype State = State(objs: map<int, Data>, heap: map<int, seq<bv8>>, bad: bool)

  /** The last byte of the layout. */
  function Last(d: Data): bv8 { if d.Small? then d.last else d.cap.top }

  function Sso(d: Data): bool { Short(Last(d)) }

  function SizeOf(d: Data): nat {
    if Sso(d) then NatOf(ShortSize(Last(d)))
    else if d.Large? then ToNat(Wide(UnpackSize(d.size.top, d.cap.top), d.size.rest))
    else 0
  }

  /** capacity(). */
  function CapacityOf(d: Data): nat {
    if Sso(d) then CAPACITY
    else if d.Large? then ToNat(Wide(UnpackCap(d.size.top, d.cap.top), d.cap.rest))
    else 0
  }

  /** The bytes at c_str(); in the short form the size byte follows the text. */
  function CStr(heap: map<int, seq<bv8>>, d: Data): seq<bv8> {
    if d.Small? then d.text + [d.last]
    else if d.ptr in heap then heap[d.ptr]
    else []
  }

  /** The capacity of a string made of n bytes. */
  function Roomy(n: nat): nat { if n <= CAPACITY then CAPACITY else n }

  /** malloc of at, then set_non_sso_data(n, n). */
  function PackLarge(at: int, n: nat): Data
    requires n < 256 * REST
  {
    var w := FromNat(n);
    Large(at, Wide(PackSize(w.top, w.top), w.rest), Wide(PackCap(w.top, w.top), w.rest))
  }

  lemma PackedIs(at: int, n: nat)
    requires n < 256 * REST
    ensures var d := PackLarge(at, n); !Sso(d) && SizeOf(d) == n == CapacityOf(d) && d.Large? && d.ptr == at
  {
    var w := FromNat(n);
    WideBack(n);
    PackRoundTrip(w.top, w.top);
    NeverMistaken(w, w);
  }

  /** The short form of bytes; junk is what was in memory before. */
  function MakeSmall(bytes: seq<bv8>, junk: seq<bv8>): Data
    requires |bytes| <= CAPACITY && |junk| == CAPACITY
  {
    var text := bytes + junk[|bytes|..];
    Small(if |bytes| < CAPACITY then text[|bytes| := 0] else text, ShortByte(ByteOf(|bytes|)))
  }

  lemma SmallIs(bytes: seq<bv8>, junk: seq<bv8>)
    requires |bytes| <= CAPACITY && |junk| == CAPACITY
    ensures var d := MakeSmall(bytes, junk);
            && Sso(d) && SizeOf(d) == |bytes| && |d.text| == CAPACITY
            && (d.text + [d.last])[..|bytes|] == bytes && (d.text + [d.last])[|bytes|] == 0
  {
    ShortBack(|bytes|);
  }

  /** What set_moved_from leaves: an empty short string over the old bytes. */
  function MovedFrom(d: Data, junk: seq<bv8>): Data
    requires |junk| == CAPACITY
  {
    Small(if d.Small? then d.text else junk, ShortByte(ByteOf(0)))
  }

  // ---- operations ----

  datatype Op =
    | Make(id: int, bytes: seq<bv8>, at: int, junk: seq<bv8>)
    | Copy(id: int, from: int, at: int, junk: seq<bv8>)
    | Move(id: int, from: int, junk: seq<bv8>)
    | Assign(id: int, from: int, at: int, junk: seq<bv8>)
    | MoveAssign(id: int, from: int, junk: seq<bv8>)
    | Destroy(id: int)

  /** Constructors need a new string, everything else live ones; malloc gives a new address. */
  ghost predicate Legal(s: State, op: Op) {
    match op
    case Make(id, bytes, at, junk) => id !in s.objs && at !in s.heap && |junk| == CAPACITY && |bytes| < 256 * REST
    case Copy(id, from, at, junk) => id !in s.objs && from in s.objs && at !in s.heap && |junk| == CAPACITY
    case Move(id, from, junk) => id !in s.objs && from in s.objs && |junk| == CAPACITY
    case Assign(id, from, at, junk) => id in s.objs && from in s.objs && at !in s.heap && |junk| == CAPACITY
    case MoveAssign(id, from, junk) => id in s.objs && from in s.objs && |junk| == CAPACITY
    case Destroy(id) => id in s.objs
  }

  /** A new value from bytes, and the heap that goes with it. */
  function Fresh(heap: map<int, seq<bv8>>, bytes: seq<bv8>, at: int, junk: seq<bv8>): (Data, map<int, seq<bv8>>)
    requires |junk| == CAPACITY && |bytes| < 256 * REST
  {
    if |bytes| <= CAPACITY then (MakeSmall(bytes, junk), heap)
    else (PackLarge(at, |bytes|), heap[at := bytes + [0]])
  }

  /** The copy constructor. */
  function Copied(heap: map<int, seq<bv8>>, d: Data, at: int, junk: seq<bv8>): (Data, map<int, seq<bv8>>)
    requires |junk| == CAPACITY
  {
    if Sso(d) then (d, heap)
    else
      var c := CStr(heap, d);
      if SizeOf(d) <= |c| && SizeOf(d) < 256 * REST then Fresh(heap, c[..SizeOf(d)], at, junk) else (d, heap)
  }

  /** The destructor. */
  function Freed(s: State, d: Data): State {
    if Sso(d) then s
    else if d.Large? && d.ptr in s.heap then s.(heap := s.heap - {d.ptr})
    else s.(bad := true)
  }

  ghost function Step(s: State, op: Op): State
    requires Legal(s, op)
  {
    match op
    case Make(id, bytes, at, junk) =>
      var f := Fresh(s.heap, bytes, at, junk);
      s.(objs := s.objs[id := f.0], heap := f.1)
    case Copy(id, from, at, junk) =>
      var f := Copied(s.heap, s.objs[from], at, junk);
      s.(objs := s.objs[id := f.0], heap := f.1)
    case Move(id, from, junk) =>
      s.(objs := s.objs[id := s.objs[from]][from := MovedFrom(s.objs[from], junk)])
    case Assign(id, from, at, junk) =>
      var f := Copied(s.heap, s.objs[from], at, junk);
      Freed(s.(objs := s.objs[id := f.0], heap := f.1), s.objs[id])
    case MoveAssign(id, from, junk) =>
      var t := Freed(s, s.objs[id]);
      t.(objs := s.objs[id := s.objs[from]][from := MovedFrom(s.objs[from], junk)])
    case Destroy(id) =>
      var t := Freed(s, s.objs[id]);
      t.(objs := s.objs - {id})
  }

  // ---- the invariant ----

  ghost predicate Ok(heap: map<int, seq<bv8>>, d: Data) {
    && (d.Small? <==> Sso(d))
    && (d.Small? ==> |d.text| == CAPACITY && SizeOf(d) <= CAPACITY)
    && (d.Large? ==> d.ptr in heap && |heap[d.ptr]| == SizeOf(d) + 1 && SizeOf(d) < 256 * REST)
    && (d.Large? ==> CapacityOf(d) == SizeOf(d) > CAPACITY)
  }

  /** Every string is well laid out, every buffer belongs to exactly one of them, and nothing was
      freed twice. */
  ghost predicate Inv(s: State) {
    && !s.bad
    && (forall i {:trigger s.objs[i]} :: i in s.objs ==> Ok(s.heap, s.objs[i]))
    && (forall i, j {:trigger s.objs[i], s.objs[j]} ::
          i in s.objs && j in s.objs && i != j && s.objs[i].Large? && s.objs[j].Large? ==>
            s.objs[i].ptr != s.objs[j].ptr)
    && (forall a {:trigger a in s.heap} :: a in s.heap ==>
        exists i :: i in s.objs && s.objs[i].Large? && s.objs[i].ptr == a)
  }

  function Value(s: State, i: int): seq<bv8>
    requires i in s.objs
  {
    var d := s.objs[i];
    var c := CStr(s.heap, d);
    if SizeOf(d) <= |c| then c[..SizeOf(d)] else []
  }

  /** The byte after the last is NUL. */
  ghost predicate Terminated(s: State, i: int)
    requires i in s.objs
  {
    var d := s.objs[i];
    SizeOf(d) < |CStr(s.heap, d)| && CStr(s.heap, d)[SizeOf(d)] == 0
  }

  /** String j is as before. */
  ghost predicate Untouched(s: State, t: State, j: int) {
    j in s.objs && j in t.objs ==> Value(t, j) == Value(s, j) && (Terminated(s, j) ==> Terminated(t, j))
  }

  // ---- pieces ----

  /** Wherever it came from, a string has room for its capacity and a NUL, and its size fits. */
  lemma CapacityFits(s: State, i: int)
    requires Inv(s) && i in s.objs
    ensures var d := s.objs[i];
            |CStr(s.heap, d)| == CapacityOf(d) + 1 && SizeOf(d) <= CapacityOf(d) == Roomy(SizeOf(d))
  {
    assert Ok(s.heap, s.objs[i]);
  }

  lemma MovedIs(d: Data, junk: seq<bv8>, heap: map<int, seq<bv8>>)
    requires |junk| == CAPACITY && Ok(heap, d)
    ensures var m := MovedFrom(d, junk); m.Small? && Sso(m) && SizeOf(m) == 0 && Ok(heap, m)
  {
    ShortBack(0);
  }

  lemma FreshIs(heap: map<int, seq<bv8>>, bytes: seq<bv8>, at: int, junk: seq<bv8>)
    requires |junk| == CAPACITY && |bytes| < 256 * REST && at !in heap
    ensures var f := Fresh(heap, bytes, at, junk);
            && Ok(f.1, f.0) && SizeOf(f.0) == |bytes| && CapacityOf(f.0) == Roomy(|bytes|)
            && |CStr(f.1, f.0)| > |bytes| && CStr(f.1, f.0)[..|bytes|] == bytes && CStr(f.1, f.0)[|bytes|] == 0
            && (if f.0.Large? then f.0.ptr == at && f.1 == heap[at := bytes + [0]] else f.1 == heap)
  {
    if |bytes| <= CAPACITY {
      SmallIs(bytes, junk);
    } else {
      PackedIs(at, |bytes|);
      assert (bytes + [0])[..|bytes|] == bytes;
    }
  }

  lemma CopiedIs(heap: map<int, seq<bv8>>, d: Data, at: int, junk: seq<bv8>)
    requires |junk| == CAPACITY && at !in heap && Ok(heap, d)
    ensures var f, c := Copied(heap, d, at, junk), CStr(heap, d);
            && Ok(f.1, f.0) && SizeOf(f.0) == SizeOf(d) < |c|
            && |CStr(f.1, f.0)| > SizeOf(d) && CStr(f.1, f.0)[..SizeOf(d)] == c[..SizeOf(d)]
            && (c[SizeOf(d)] == 0 ==> CStr(f.1, f.0)[SizeOf(d)] == 0)
            && (f.0.Large? ==>
                f.0.ptr == at && f.1.Keys == heap.Keys + {at}
                && forall a {:trigger f.1[a]} :: a in heap ==> f.1[a] == heap[a])
            && (f.0.Small? ==> f.1 == heap)
  {
    if !Sso(d) {
      var c := CStr(heap, d);
      FreshIs(heap, c[..SizeOf(d)], at, junk);
    }
  }

  // ---- adding, moving and destroying keep the invariant ----

  /** d is a new value: short, or the owner of the one new buffer at. */
  ghost predicate IsNew(heap: map<int, seq<bv8>>, d: Data, heap': map<int, seq<bv8>>, at: int) {
    && Ok(heap', d) && at !in heap
    && (d.Small? ==> heap' == heap)
    && (d.Large? ==> d.ptr == at && heap'.Keys == heap.Keys + {at} && forall a {:trigger heap'[a]} :: a in heap ==>
        heap'[a] == heap[a])
  }

  lemma AddKeeps(s: State, id: int, d: Data, heap': map<int, seq<bv8>>, at: int)
    requires Inv(s) && id !in s.objs && IsNew(s.heap, d, heap', at)
    ensures Inv(s.(objs := s.objs[id := d], heap := heap'))
    ensures forall j {:trigger s.objs[j]} :: j in s.objs ==> Untouched(s, s.(objs := s.objs[id := d], heap := heap'), j)
  {
    var t := s.(objs := s.objs[id := d], heap := heap');
    forall i | i in t.objs ensures Ok(t.heap, t.objs[i]) {
      if i != id { assert Ok(s.heap, s.objs[i]); }
    }
    forall i, j | i in t.objs && j in t.objs && i != j && t.objs[i].Large? && t.objs[j].Large?
      ensures t.objs[i].ptr != t.objs[j].ptr
    {
      if i != id { assert Ok(s.heap, s.objs[i]); }
      if j != id { assert Ok(s.heap, s.objs[j]); }
    }
    forall a | a in t.heap ensures exists i :: i in t.objs && t.objs[i].Large? && t.objs[i].ptr == a {
      AddOwned(s, id, d, heap', at, a);
    }
    forall j | j in s.objs ensures Untouched(s, t, j) {
      assert Ok(s.heap, s.objs[j]);
      SameText(s, t, j);
    }
  }

  lemma AddOwned(s: State, id: int, d: Data, heap': map<int, seq<bv8>>, at: int, a: int)
    requires Inv(s) && id !in s.objs && IsNew(s.heap, d, heap', at) && a in heap'
    ensures var objs := s.objs[id := d]; exists i :: i in objs && objs[i].Large? && objs[i].ptr == a
  {
    var objs := s.objs[id := d];
    if a in s.heap {
      var i :| i in s.objs && s.objs[i].Large? && s.objs[i].ptr == a;
      assert objs[i] == s.objs[i];
    } else {
      assert objs[id].Large? && objs[id].ptr == a;
    }
  }

  /** The same data over the same buffer reads the same. */
  lemma SameText(s: State, t: State, j: int)
    requires j in s.objs && j in t.objs && t.objs[j] == s.objs[j] && Ok(s.heap, s.objs[j])
    requires s.objs[j].Large? ==> s.objs[j].ptr in t.heap && t.heap[s.objs[j].ptr] == s.heap[s.objs[j].ptr]
    ensures Untouched(s, t, j)
  {}

  /** Two strings exchange their data. */
  lemma SwapKeeps(s: State, i: int, j: int)
    requires Inv(s) && i in s.objs && j in s.objs && i != j
    ensures Inv(s.(objs := s.objs[i := s.objs[j]][j := s.objs[i]]))
  {
    var t := s.(objs := s.objs[i := s.objs[j]][j := s.objs[i]]);
    forall k | k in t.objs ensures Ok(t.heap, t.objs[k]) {
      assert Ok(s.heap, s.objs[if k == i then j else if k == j then i else k]);
    }
    forall a | a in t.heap ensures exists k :: k in t.objs && t.objs[k].Large? && t.objs[k].ptr == a {
      var k :| k in s.objs && s.objs[k].Large? && s.objs[k].ptr == a;
      var m := if k == i then j else if k == j then i else k;
      assert t.objs[m] == s.objs[k];
    }
    forall k, l | k in t.objs && l in t.objs && k != l && t.objs[k].Large? && t.objs[l].Large?
      ensures t.objs[k].ptr != t.objs[l].ptr
    {
      SwapApart(s, i, j, k, l);
    }
  }

  lemma SwapApart(s: State, i: int, j: int, k: int, l: int)
    requires Inv(s) && i in s.objs && j in s.objs && i != j && k in s.objs && l in s.objs && k != l
    ensures var objs := s.objs[i := s.objs[j]][j := s.objs[i]];
            objs[k].Large? && objs[l].Large? ==> objs[k].ptr != objs[l].ptr
  {
    var m, n := if k == i then j else if k == j then i else k, if l == i then j else if l == j then i else l;
    assert m != n;
    assert s.objs[m].Large? && s.objs[n].Large? ==> s.objs[m].ptr != s.objs[n].ptr;
  }

  lemma FreeFinds(s: State, id: int)
    requires Inv(s) && id in s.objs
    ensures var d := s.objs[id];
            Freed(s, d) == if d.Small? then s else s.(heap := s.heap - {d.ptr})
  {
    assert Ok(s.heap, s.objs[id]);
  }

  /** The buffer freed is the one of id and nobody else's. */
  lemma DestroyKeeps(s: State, id: int)
    requires Inv(s) && id in s.objs
    ensures var t := Step(s, Destroy(id));
            && Inv(t) && t.objs == s.objs - {id}
            && forall j {:trigger s.objs[j]} :: j in s.objs ==> Untouched(s, t, j)
  {
    var t, d := Step(s, Destroy(id)), s.objs[id];
    FreeFinds(s, id);
    forall j | j in t.objs ensures Ok(t.heap, t.objs[j]) && Untouched(s, t, j) {
      assert Ok(s.heap, s.objs[j]);
      assert t.objs[j] == s.objs[j];
      assert d.Large? && s.objs[j].Large? ==> s.objs[j].ptr != s.objs[id].ptr;
    }
    forall a | a in t.heap ensures exists i :: i in t.objs && t.objs[i].Large? && t.objs[i].ptr == a {
      assert a in s.heap;
      var i :| i in s.objs && s.objs[i].Large? && s.objs[i].ptr == a;
      assert i != id && t.objs[i] == s.objs[i];
    }
    forall i, j | i in t.objs && j in t.objs && i != j && t.objs[i].Large? && t.objs[j].Large?
      ensures t.objs[i].ptr != t.objs[j].ptr
    {
      assert t.objs[i] == s.objs[i] && t.objs[j] == s.objs[j];
    }
  }

  // ---- every operation ----

  lemma MakeStep(s: State, op: Op)
    requires Inv(s) && op.Make? && Legal(s, op)
    ensures var t := Step(s, op);
            && Inv(t) && Value(t, op.id) == op.bytes && Terminated(t, op.id)
            && SizeOf(t.objs[op.id]) == |op.bytes| && CapacityOf(t.objs[op.id]) == Roomy(|op.bytes|)
            && forall j {:trigger s.objs[j]} :: j in s.objs ==> Untouched(s, t, j)
  {
    FreshIs(s.heap, op.bytes, op.at, op.junk);
    var f := Fresh(s.heap, op.bytes, op.at, op.junk);
    AddKeeps(s, op.id, f.0, f.1, op.at);
  }

  lemma CopyAdds(s: State, id: int, from: int, at: int, junk: seq<bv8>)
    requires Inv(s) && Legal(s, Copy(id, from, at, junk))
    ensures var t := Step(s, Copy(id, from, at, junk));
            && Inv(t) && t.objs.Keys == s.objs.Keys + {id} && Value(t, id) == Value(s, from)
                 && (Terminated(s, from) ==> Terminated(t, id))
            && forall j {:trigger s.objs[j]} :: j in s.objs ==> Untouched(s, t, j) && t.objs[j] == s.objs[j]
  {
    assert Ok(s.heap, s.objs[from]);
    CopyGrows(s, id, from, at, junk);
    CopyValue(s, id, from, at, junk);
  }

  lemma CopyGrows(s: State, id: int, from: int, at: int, junk: seq<bv8>)
    requires Inv(s) && Legal(s, Copy(id, from, at, junk)) && Ok(s.heap, s.objs[from])
    ensures var t := Step(s, Copy(id, from, at, junk));
            && Inv(t) && t.objs.Keys == s.objs.Keys + {id}
            && forall j {:trigger s.objs[j]} :: j in s.objs ==> Untouched(s, t, j) && t.objs[j] == s.objs[j]
  {
    CopyIsNew(s.heap, s.objs[from], at, junk);
    var f := Copied(s.heap, s.objs[from], at, junk);
    AddKeeps(s, id, f.0, f.1, at);
  }

  lemma CopyIsNew(heap: map<int, seq<bv8>>, d: Data, at: int, junk: seq<bv8>)
    requires |junk| == CAPACITY && at !in heap && Ok(heap, d)
    ensures IsNew(heap, Copied(heap, d, at, junk).0, Copied(heap, d, at, junk).1, at)
  {
    CopiedIs(heap, d, at, junk);
  }

  lemma CopyValue(s: State, id: int, from: int, at: int, junk: seq<bv8>)
    requires Legal(s, Copy(id, from, at, junk)) && Ok(s.heap, s.objs[from])
    ensures var t := Step(s, Copy(id, from, at, junk));
            Value(t, id) == Value(s, from) && (Terminated(s, from) ==> Terminated(t, id))
  {
    CopiedIs(s.heap, s.objs[from], at, junk);
  }

  lemma MoveInv(s: State, id: int, from: int, junk: seq<bv8>)
    requires Inv(s) && Legal(s, Move(id, from, junk))
    ensures Inv(Step(s, Move(id, from, junk)))
  {
    var d := s.objs[from];
    assert Ok(s.heap, d);
    MovedIs(d, junk, s.heap);
    var m := MovedFrom(d, junk);
    var at := NewAddress(s.heap);
    AddKeeps(s, id, m, s.heap, at);
    var u := s.(objs := s.objs[id := m]);
    SwapKeeps(u, id, from);
    NewSwapped(s.objs, id, from, m);
  }

  lemma NewSwapped(objs: map<int, Data>, id: int, from: int, m: Data)
    requires id !in objs && from in objs
    ensures var u := objs[id := m];
            u[id := u[from]][from := u[id]] == objs[id := objs[from]][from := m]
  {}

  lemma EmptyValue(t: State, i: int)
    requires i in t.objs && SizeOf(t.objs[i]) == 0
    ensures Value(t, i) == []
  {}

  /** The same data over the same heap is the same string. */
  lemma SameString(s: State, t: State, i: int, j: int)
    requires i in s.objs && j in t.objs && t.objs[j] == s.objs[i] && t.heap == s.heap
    ensures Value(t, j) == Value(s, i) && (Terminated(s, i) ==> Terminated(t, j))
  {}

  lemma MoveStep(s: State, id: int, from: int, junk: seq<bv8>)
    requires Inv(s) && Legal(s, Move(id, from, junk))
    ensures var t := Step(s, Move(id, from, junk));
            && Inv(t) && Value(t, id) == Value(s, from) && (Terminated(s, from) ==> Terminated(t, id))
            && from in t.objs && Value(t, from) == []
            && forall j {:trigger s.objs[j]} :: j in s.objs && j != from ==> Untouched(s, t, j)
  {
    MoveInv(s, id, from, junk);
    assert Ok(s.heap, s.objs[from]);
    MovedIs(s.objs[from], junk, s.heap);
    var t := Step(s, Move(id, from, junk));
    SameString(s, t, from, id);
    EmptyValue(t, from);
    forall j | j in s.objs && j != from ensures Untouched(s, t, j) { SameString(s, t, j, j); }
  }

  lemma {:induction false} Beyond(xs: set<int>) returns (x: int)
    ensures forall y :: y in xs ==> y < x
    decreases |xs|
  {
    if exists y :: y in xs {
      var y :| y in xs;
      var z := Beyond(xs - {y});
      x := if y < z then z else y + 1;
      assert xs == (xs - {y}) + {y};
    } else {
      x := 0;
    }
  }

  lemma NewAddress(heap: map<int, seq<bv8>>) returns (at: int)
    ensures at !in heap
  {
    at := Beyond(heap.Keys);
  }

  lemma NewId(objs: map<int, Data>) returns (id: int)
    ensures id !in objs
  {
    id := Beyond(objs.Keys);
  }

  /** The three steps of an assignment, with a temporary. */
  ghost predicate ViaTemporary(s: State, a: State, b: State, c: State, id: int, from: int, at: int, junk: seq<bv8>,
                               tmp: int)
    requires Legal(s, Assign(id, from, at, junk))
  {
    && tmp !in s.objs && a == Step(s, Copy(tmp, from, at, junk)) && id in a.objs && tmp in a.objs
    && b == a.(objs := a.objs[id := a.objs[tmp]][tmp := a.objs[id]])
    && c == Step(b, Destroy(tmp))
  }

  lemma AssignIs(s: State, a: State, b: State, c: State, id: int, from: int, at: int, junk: seq<bv8>, tmp: int)
    requires Legal(s, Assign(id, from, at, junk)) && ViaTemporary(s, a, b, c, id, from, at, junk, tmp)
    ensures Step(s, Assign(id, from, at, junk)) == c
  {
    assert b.objs[tmp] == s.objs[id];
    assert b.objs - {tmp} == s.objs[id := a.objs[tmp]];
  }

  lemma AssignInv(s: State, id: int, from: int, at: int, junk: seq<bv8>)
    returns (a: State, b: State, c: State, tmp: int)
    requires Inv(s) && Legal(s, Assign(id, from, at, junk))
    ensures ViaTemporary(s, a, b, c, id, from, at, junk, tmp) && Inv(c) && c.objs == b.objs - {tmp}
    ensures tmp in a.objs && Value(a, tmp) == Value(s, from) && (Terminated(s, from) ==> Terminated(a, tmp))
    ensures forall j {:trigger s.objs[j]} :: j in s.objs ==> j in a.objs && Untouched(s, a, j) && a.objs[j] == s.objs[j]
    ensures forall j {:trigger b.objs[j]} :: j in b.objs ==> Untouched(b, c, j)
  {
    tmp := NewId(s.objs);
    CopyAdds(s, tmp, from, at, junk);
    a := Step(s, Copy(tmp, from, at, junk));
    SwapKeeps(a, id, tmp);
    b := a.(objs := a.objs[id := a.objs[tmp]][tmp := a.objs[id]]);
    DestroyKeeps(b, tmp);
    c := Step(b, Destroy(tmp));
  }

  lemma UntouchedChain(s: State, a: State, b: State, c: State, j: int)
    requires j in s.objs && j in a.objs && j in b.objs && j in c.objs
    requires Untouched(s, a, j) && b.heap == a.heap && b.objs[j] == a.objs[j] && Untouched(b, c, j)
    ensures Untouched(s, c, j)
  {
    SameString(a, b, j, j);
  }

  /** Copy to a temporary, swap, destroy the temporary: also when a string is assigned to itself. */
  lemma AssignStep(s: State, id: int, from: int, at: int, junk: seq<bv8>)
    requires Inv(s) && Legal(s, Assign(id, from, at, junk))
    ensures var t := Step(s, Assign(id, from, at, junk));
            && Inv(t) && id in t.objs && Value(t, id) == Value(s, from) && (Terminated(s, from) ==> Terminated(t, id))
            && forall j {:trigger s.objs[j]} :: j in s.objs && j != id ==> Untouched(s, t, j)
  {
    var a, b, c, tmp := AssignInv(s, id, from, at, junk);
    AssignIs(s, a, b, c, id, from, at, junk, tmp);
    AssignReads(s, a, b, c, id, tmp);
  }

  /** What the strings read after the swap and the destruction of the temporary. */
  lemma AssignReads(s: State, a: State, b: State, c: State, id: int, tmp: int)
    requires id in s.objs && tmp !in s.objs && tmp in a.objs && id in a.objs && id != tmp
    requires b == a.(objs := a.objs[id := a.objs[tmp]][tmp := a.objs[id]]) && c.objs == b.objs - {tmp}
    requires forall j {:trigger s.objs[j]} :: j in s.objs ==>
               j in a.objs && Untouched(s, a, j) && a.objs[j] == s.objs[j]
    requires forall j {:trigger b.objs[j]} :: j in b.objs ==> Untouched(b, c, j)
    ensures id in c.objs && Value(c, id) == Value(a, tmp) && (Terminated(a, tmp) ==> Terminated(c, id))
    ensures forall j {:trigger s.objs[j]} :: j in s.objs && j != id ==> Untouched(s, c, j)
  {
    SameString(a, b, tmp, id);
    assert b.objs[id] == a.objs[tmp] && Untouched(b, c, id);
    forall j | j in s.objs && j != id ensures Untouched(s, c, j) {
      assert a.objs[j] == s.objs[j] && b.objs[j] == a.objs[j];
      UntouchedChain(s, a, b, c, j);
    }
  }

  /** The old value is destroyed first; a string moved to itself ends up empty. */
  lemma MoveAssignStep(s: State, id: int, from: int, junk: seq<bv8>)
    requires Inv(s) && Legal(s, MoveAssign(id, from, junk))
    ensures var t := Step(s, MoveAssign(id, from, junk));
            && Inv(t) && id in t.objs && from in t.objs && Value(t, from) == []
            && (id != from ==> Value(t, id) == Value(s, from) && (Terminated(s, from) ==> Terminated(t, id)))
            && forall j {:trigger s.objs[j]} :: j in s.objs && j != id && j != from ==> Untouched(s, t, j)
  {
    if id != from { MoveToOther(s, id, from, junk); } else { MoveToSelf(s, id, junk); }
  }

  lemma MoveToOther(s: State, id: int, from: int, junk: seq<bv8>)
    requires Inv(s) && Legal(s, MoveAssign(id, from, junk)) && id != from
    ensures var t := Step(s, MoveAssign(id, from, junk));
            && Inv(t) && id in t.objs && from in t.objs && Value(t, from) == []
            && Value(t, id) == Value(s, from) && (Terminated(s, from) ==> Terminated(t, id))
            && forall j {:trigger s.objs[j]} :: j in s.objs && j != id && j != from ==> Untouched(s, t, j)
  {
    DestroyKeeps(s, id);
    var a := Step(s, Destroy(id));
    assert from in a.objs && a.objs[from] == s.objs[from];
    MoveStep(a, id, from, junk);
    var b := Step(a, Move(id, from, junk));
    MoveAssignIs(s, id, from, junk);
    assert Untouched(s, a, from);
    forall j | j in s.objs && j != id && j != from ensures Untouched(s, b, j) {
      assert j in a.objs && a.objs[j] == s.objs[j];
      assert Untouched(s, a, j) && Untouched(a, b, j);
    }
  }

  /** Destroy, then move. */
  lemma MoveAssignIs(s: State, id: int, from: int, junk: seq<bv8>)
    requires Legal(s, MoveAssign(id, from, junk)) && id != from
    ensures var a := Step(s, Destroy(id));
            Legal(a, Move(id, from, junk))
            && Step(a, Move(id, from, junk)) == Step(s, MoveAssign(id, from, junk))
  {
    var a := Step(s, Destroy(id));
    assert a.objs == s.objs - {id};
    assert a.objs[id := a.objs[from]][from := MovedFrom(a.objs[from], junk)] ==
           s.objs[id := s.objs[from]][from := MovedFrom(s.objs[from], junk)];
  }

  lemma AddEmpty(a: State, id: int, m: Data)
    requires Inv(a) && id !in a.objs && m.Small? && SizeOf(m) == 0 && Ok(a.heap, m)
    ensures var t := a.(objs := a.objs[id := m]);
            && Inv(t) && id in t.objs && Value(t, id) == []
            && forall j {:trigger a.objs[j]} :: j in a.objs ==> Untouched(a, t, j)
  {
    var at := NewAddress(a.heap);
    AddKeeps(a, id, m, a.heap, at);
    EmptyValue(a.(objs := a.objs[id := m]), id);
  }

  lemma MoveToSelf(s: State, id: int, junk: seq<bv8>)
    requires Inv(s) && Legal(s, MoveAssign(id, id, junk))
    ensures var t := Step(s, MoveAssign(id, id, junk));
            && Inv(t) && id in t.objs && Value(t, id) == []
            && forall j {:trigger s.objs[j]} :: j in s.objs && j != id ==> Untouched(s, t, j)
  {
    DestroyKeeps(s, id);
    var a := Step(s, Destroy(id));
    var t := Step(s, MoveAssign(id, id, junk));
    assert Ok(s.heap, s.objs[id]);
    MovedIs(s.objs[id], junk, s.heap);
    AddEmpty(a, id, MovedFrom(s.objs[id], junk));
    assert a.objs[id := MovedFrom(s.objs[id], junk)] == s.objs[id := s.objs[id]][id := MovedFrom(s.objs[id], junk)];
    forall j | j in s.objs && j != id ensures Untouched(s, t, j) {
      assert j in a.objs && a.objs[j] == s.objs[j];
      assert Untouched(s, a, j);
    }
  }

  /** The first byte a moved-from string keeps: its own if it was short, otherwise whatever the
      pointer's lowest byte happens to be. */
  function FirstByte(d: Data, junk: seq<bv8>): bv8
    requires |junk| == CAPACITY && (d.Small? ==> |d.text| == CAPACITY)
  {
    if d.Small? then d.text[0] else junk[0]
  }

  lemma MovedTerminated(t: State, i: int, d: Data, junk: seq<bv8>, heap: map<int, seq<bv8>>)
    requires |junk| == CAPACITY && Ok(heap, d) && i in t.objs && t.objs[i] == MovedFrom(d, junk)
    ensures Terminated(t, i) <==> FirstByte(d, junk) == 0
  {
    MovedIs(d, junk, heap);
  }

  /** A moved-from string has size 0, but its terminating NUL is there exactly when the first byte
      left over is zero. */
  lemma MoveLeavesNulIff(s: State, op: Op)
    requires Inv(s) && Legal(s, op) && (op.Move? || op.MoveAssign?)
    ensures |op.junk| == CAPACITY && (s.objs[op.from].Small? ==> |s.objs[op.from].text| == CAPACITY)
    ensures var t := Step(s, op);
            op.from in t.objs && (Terminated(t, op.from) <==> FirstByte(s.objs[op.from], op.junk) == 0)
  {
    assert Ok(s.heap, s.objs[op.from]);
    MovedTerminated(Step(s, op), op.from, s.objs[op.from], op.junk, s.heap);
  }

  const HELLO: seq<bv8> := [104, 101, 108, 108, 111]
  const ZEROS: seq<bv8> := [0, 0, 0, 0, 0, 0, 0, 0, 0, 0, 0, 0, 0, 0, 0, 0, 0, 0, 0, 0, 0, 0, 0]

  /** Moving "hello" away leaves a string of size 0 whose first byte is still the letter h. */
  lemma MovedHelloUnterminated()
    ensures var s := State(map[], map[], false);
            var make, move := Make(1, HELLO, 0, ZEROS), Move(2, 1, ZEROS);
            && Legal(s, make) && Legal(Step(s, make), move)
            && var t := Step(Step(s, make), move);
               1 in t.objs && Value(t, 1) == [] && !Terminated(t, 1) && Value(t, 2) == HELLO
  {
    StartInv();
    var s := State(map[], map[], false);
    var make, move := Make(1, HELLO, 0, ZEROS), Move(2, 1, ZEROS);
    MakeStep(s, make);
    var a := Step(s, make);
    MoveStep(a, 2, 1, ZEROS);
    MoveLeavesNulIff(a, move);
    assert a.objs[1].text[0] == HELLO[0];
  }

  lemma StepInv(s: State, op: Op)
    requires Inv(s) && Legal(s, op)
    ensures Inv(Step(s, op))
  {
    match op
    case Make(_, _, _, _) => MakeStep(s, op);
    case Copy(id, from, at, junk) => CopyAdds(s, id, from, at, junk);
    case Move(id, from, junk) => MoveStep(s, id, from, junk);
    case Assign(id, from, at, junk) => AssignStep(s, id, from, at, junk);
    case MoveAssign(id, from, junk) => MoveAssignStep(s, id, from, junk);
    case Destroy(id) => DestroyKeeps(s, id);
  }

  // ---- whole runs ----

  ghost predicate LegalRun(s: State, ops: seq<Op>)
    decreases |ops|
  {
    ops == [] || (Legal(s, ops[0]) && LegalRun(Step(s, ops[0]), ops[1..]))
  }

  ghost function Run(s: State, ops: seq<Op>): State
    requires LegalRun(s, ops)
    decreases |ops|
  {
    if ops == [] then s else Run(Step(s, ops[0]), ops[1..])
  }

  /** Over any sequence of operations nothing is freed that is not live, every live buffer belongs
      to exactly one live string, and when no string is left no buffer is. */
  lemma {:induction false} FreedExactlyOnce(s: State, ops: seq<Op>)
    requires Inv(s) && LegalRun(s, ops)
    ensures var r := Run(s, ops);
            && Inv(r) && !r.bad && (r.objs == map[] ==> r.heap == map[])
    decreases |ops|
  {
    if ops == [] {
      if s.objs == map[] {
        assert forall a {:trigger a in s.heap} :: a !in s.heap;
      }
    } else {
      StepInv(s, ops[0]);
      FreedExactlyOnce(Step(s, ops[0]), ops[1..]);
    }
  }

  lemma StartInv()
    ensures Inv(State(map[], map[], false))
  {}
}
