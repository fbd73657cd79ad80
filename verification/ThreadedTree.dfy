/** The class TRBTree of src/trbtree.hh: insertion, lookup and the destructor's walk. */
module ThreadedTree {
  import opened RbTree
  import opened RbArena

  const MAX_HEIGHT := 48  // maxHeight

  // ---- keys ----

  function Key(nodes: seq<Node>, x: int): int { if 0 <= x < |nodes| then nodes[x].key else 0 }

  /** Strictly ascending keys. */
  ghost predicate Sorted(nodes: seq<Node>, ids: seq<int>) {
    forall i, j {:trigger ids[i], ids[j]} :: 0 <= i < j < |ids| ==> Key(nodes, ids[i]) < Key(nodes, ids[j])
  }

  ghost predicate AllBelow(nodes: seq<Node>, ids: seq<int>, k: int) {
    forall i {:trigger ids[i]} :: 0 <= i < |ids| ==> Key(nodes, ids[i]) < k
  }

  ghost predicate AllAbove(nodes: seq<Node>, ids: seq<int>, k: int) {
    forall i {:trigger ids[i]} :: 0 <= i < |ids| ==> k < Key(nodes, ids[i])
  }

  /** The same nodes with the same keys and values. */
  ghost predicate Relinked(nodes: seq<Node>, nodes': seq<Node>) {
    |nodes'| == |nodes| && DataKept(nodes, nodes')
  }

  /** Keys and values of the nodes there were are as before. */
  ghost predicate DataKept(nodes: seq<Node>, nodes': seq<Node>) {
    && |nodes| <= |nodes'|
    && forall x {:trigger nodes'[x]} :: 0 <= x < |nodes| ==>
         nodes'[x].key == nodes[x].key && nodes'[x].val == nodes[x].val
  }

  lemma {:induction false} OrderIds(t: Tree, x: int)
    ensures x in Order(t) <==> x in Ids(t)
  {
    if t.Branch? {
      OrderIds(t.left, x);
      OrderIds(t.right, x);
    }
  }

  /** The search has come to a place with all smaller keys before it and all larger after it. */
  ghost predicate Between(nodes: seq<Node>, path: Path, k: int) {
    AllBelow(nodes, Before(path), k) && AllAbove(nodes, After(path), k)
  }

  lemma SplitSorted(nodes: seq<Node>, a: seq<int>, x: int, b: seq<int>, k: int)
    requires Sorted(nodes, a + [x] + b)
    ensures Key(nodes, x) < k ==> AllBelow(nodes, a + [x], k)
    ensures k < Key(nodes, x) ==> AllAbove(nodes, [x] + b, k)
  {
    var s := a + [x] + b;
    assert s[|a|] == x;
    forall i | 0 <= i < |a + [x]| ensures Key(nodes, x) < k ==> Key(nodes, (a + [x])[i]) < k {
      assert s[i] == (a + [x])[i];
    }
    forall i | 0 <= i < |[x] + b| ensures k < Key(nodes, x) ==> k < Key(nodes, ([x] + b)[i]) {
      assert s[|a| + i] == ([x] + b)[i];
    }
  }

  lemma Regroup(a: seq<int>, b: seq<int>, x: int, c: seq<int>, d: seq<int>)
    ensures a + (b + [x] + c) + d == (a + b) + [x] + (c + d)
  {}

  lemma SearchLeft(nodes: seq<Node>, path: Path, t: Tree, k: int)
    requires t.Branch? && Sorted(nodes, Around(path, t)) && k < Key(nodes, t.id)
    ensures AllAbove(nodes, After(Down(path, t, Left)), k)
  {
    var a, b := Before(path) + Order(t.left), Order(t.right) + After(path);
    Regroup(Before(path), Order(t.left), t.id, Order(t.right), After(path));
    SplitSorted(nodes, a, t.id, b, k);
    assert [t.id] + b == After(Down(path, t, Left));
  }

  lemma SearchRight(nodes: seq<Node>, path: Path, t: Tree, k: int)
    requires t.Branch? && Sorted(nodes, Around(path, t)) && Key(nodes, t.id) < k
    ensures AllBelow(nodes, Before(Down(path, t, Right)), k)
  {
    var a, b := Before(path) + Order(t.left), Order(t.right) + After(path);
    Regroup(Before(path), Order(t.left), t.id, Order(t.right), After(path));
    SplitSorted(nodes, a, t.id, b, k);
  }

  /** One step of a search. */
  lemma SearchDown(nodes: seq<Node>, path: Path, t: Tree, k: int, s: Side)
    requires t.Branch? && Sorted(nodes, Around(path, t)) && Between(nodes, path, k)
    requires if s == Left then k < Key(nodes, t.id) else Key(nodes, t.id) < k
    ensures Between(nodes, Down(path, t, s), k)
  {
    if s == Left { SearchLeft(nodes, path, t, k); } else { SearchRight(nodes, path, t, k); }
  }

  /** A search that ends at a leaf: the key is nowhere in the tree. */
  lemma SearchFails(nodes: seq<Node>, path: Path, k: int, x: int)
    requires Between(nodes, path, k) && x in Around(path, Leaf)
    ensures Key(nodes, x) != k
  {
    var i :| 0 <= i < |Around(path, Leaf)| && Around(path, Leaf)[i] == x;
    if i < |Before(path)| { assert Before(path)[i] == x; } else { assert After(path)[i - |Before(path)|] == x; }
  }

  /** Putting a new key where a failed search ended. */
  lemma SortedWith(nodes: seq<Node>, nodes': seq<Node>, a: seq<int>, n: int, b: seq<int>)
    requires Sorted(nodes, a + b) && DataKept(nodes, nodes') && n == |nodes| < |nodes'|
    requires forall x :: x in a + b ==> 0 < x < |nodes|
    requires AllBelow(nodes, a, nodes'[n].key) && AllAbove(nodes, b, nodes'[n].key)
    ensures Sorted(nodes', a + [n] + b)
  {
    var s := a + [n] + b;
    forall i, j | 0 <= i < j < |s| ensures Key(nodes', s[i]) < Key(nodes', s[j]) {
      assert forall c :: 0 <= c < |a| ==> s[c] == a[c] == (a + b)[c];
      assert forall c :: |a| < c < |s| ==> s[c] == b[c - |a| - 1] == (a + b)[c - 1];
      assert i != |a| ==> s[i] in a + b;
      assert j != |a| ==> s[j] in a + b;
    }
  }

  // ---- the ancestor stacks ----

  function Ancestors(path: Path): (r: seq<int>)
    ensures |r| == Depth(path) + 1 && r[Depth(path)] == Parent(path)
  {
    match path
    case Top => [HOLDER]
    case In(_, _, id, _, up) => Ancestors(up) + [id]
  }

  function Directions(path: Path): (r: seq<Side>)
    ensures |r| == Depth(path) + 1 && r[Depth(path)] == Hand(path)
  {
    match path
    case Top => [Left]
    case In(s, _, _, _, up) => Directions(up) + [s]
  }

  lemma StackTop(pa: seq<int>, da: seq<Side>, path: Path)
    requires path.In? && path.up.In? && pa == Ancestors(path) && da == Directions(path)
    ensures var k := |pa|;
            && k == |da| == Depth(path) + 1 && k >= 3
            && pa[k - 1] == path.id && pa[k - 2] == path.up.id && pa[k - 3] == Parent(path.up.up)
            && da[k - 1] == path.side && da[k - 2] == path.up.side && da[k - 3] == Hand(path.up.up)
            && pa[..k - 2] == Ancestors(path.up.up) && da[..k - 2] == Directions(path.up.up)
  {
    assert pa == Ancestors(path.up.up) + [path.up.id] + [path.id];
    assert da == Directions(path.up.up) + [path.up.side] + [path.side];
  }

  lemma ParentReads(nodes: seq<Node>, path: Path, f: Tree)
    requires Holds(nodes, path, f)
    ensures path.In? ==> 0 < path.id < |nodes| && nodes[path.id].l.low == path.red
  {
    HoldsIs(nodes, path, f);
  }

  lemma UncleReads(nodes: seq<Node>, path: Path, f: Tree)
    requires Holds(nodes, path, f) && path.In? && path.up.In?
    ensures Reads(nodes, Make(path.up.side, path.up.red, Make(path.side, path.red, f, path.id, path.sib), path.up.id,
                              path.up.sib), Other(path.up.side))
  {
    Ascend(nodes, path, f);
    Ascend(nodes, path.up, Make(path.side, path.red, f, path.id, path.sib));
    ReadsAt(nodes, path.up.up,
            Make(path.up.side, path.up.red, Make(path.side, path.red, f, path.id, path.sib), path.up.id, path.up.sib),
              Other(path.up.side));
  }

  /** A tree of fewer than 2^23 nodes never needs more than 47 entries of the stacks. */
  lemma StackFits(path: Path, f: Tree, t: Tree)
    requires Plug(path, f) == t && Balanced(t) && !Red(t) && |Order(t)| < 0x80_0000
    ensures Depth(path) + Height(f) <= 46 < MAX_HEIGHT - 1
  {
    DepthBound(path, f);
    assert Pow2(12) == 4096 && Pow2(24) == 0x100_0000 by {
      assert Pow2(3) == 8;
      assert Pow2(6) == 64;
      assert Pow2(9) == 512;
      assert Pow2(12) == 4096;
      assert Pow2(15) == 0x8000;
      assert Pow2(18) == 0x4_0000;
      assert Pow2(21) == 0x20_0000;
    }
    HeightBound(t, 23);
  }

  // ---- neighbours ----

  lemma {:induction false} BoundsAre(path: Path)
    ensures Lo(path) == (if Before(path) == [] then NULL else Before(path)[|Before(path)| - 1])
    ensures Hi(path) == (if After(path) == [] then NULL else After(path)[0])
  {
    if path.In? { BoundsAre(path.up); }
  }

  /** The place of the i-th node in order. */
  lemma {:induction false} HoldsAt(nodes: seq<Node>, path: Path, t: Tree, i: nat) returns (p: Path, f: Tree)
    requires i < |Order(t)| && Holds(nodes, path, t)
    ensures Plug(p, f) == Plug(path, t) && f.Branch? && f.id == Order(t)[i] && Holds(nodes, p, f)
    ensures |Before(p)| + |Order(f.left)| == |Before(path)| + i
    decreases t
  {
    var l := |Order(t.left)|;
    if i < l {
      Descend(nodes, path, t, Left);
      p, f := HoldsAt(nodes, Down(path, t, Left), t.left, i);
    } else if i == l {
      p, f := path, t;
    } else {
      Descend(nodes, path, t, Right);
      p, f := HoldsAt(nodes, Down(path, t, Right), t.right, i - l - 1);
    }
  }

  /** The node at position i of a sequence, or NULL beyond its ends. */
  function Nth(ids: seq<int>, i: int): int { if 0 <= i < |ids| then ids[i] else NULL }

  lemma NextTrail(nodes: seq<Node>, t: Tree, p: Path, f: Tree, i: nat)
    requires Holds(nodes, p, f) && Plug(p, f) == t && f.Branch? && i == |Before(p)| + |Order(f.left)|
    ensures 0 < f.id < |nodes|
    ensures f.right.Leaf? ==> nodes[f.id].r.trail && nodes[f.id].r.to == Nth(Order(t), i + 1)
    ensures f.left.Leaf? ==> nodes[f.id].l.trail && nodes[f.id].l.to == Nth(Order(t), i - 1)
  {
    HoldsIs(nodes, p, f);
    PlugOrder(p, f);
    BoundsAre(p);
    NextTo(Before(p), Order(f.left), f.id, Order(f.right), After(p));
  }

  /** The neighbours of x in order. */
  lemma NextTo(b: seq<int>, l: seq<int>, x: int, r: seq<int>, a: seq<int>)
    ensures var ids, i := b + (l + [x] + r) + a, |b| + |l|;
            && (r == [] ==> Nth(ids, i + 1) == if a == [] then NULL else a[0])
            && (l == [] ==> Nth(ids, i - 1) == if b == [] then NULL else b[|b| - 1])
  {}

  /** Every trail leads to the neighbour in order, or to NULL at the ends. */
  lemma TrailsLeadToNeighbours(nodes: seq<Node>, t: Tree, i: nat)
    requires Holds(nodes, Top, t) && i < |Order(t)|
    ensures var x := Order(t)[i];
            && 0 < x < |nodes|
            && (nodes[x].l.trail ==> nodes[x].l.to == Nth(Order(t), i - 1))
            && (nodes[x].r.trail ==> nodes[x].r.to == Nth(Order(t), i + 1))
  {
    var p, f := HoldsAt(nodes, Top, t, i);
    ReadsAt(nodes, p, f, Left);
    ReadsAt(nodes, p, f, Right);
    NextTrail(nodes, t, p, f, i);
  }

  /** Positions are unique: a node at position j is not among the first i <= j. */
  lemma NotYet(nodes: seq<Node>, ids: seq<int>, i: nat, j: nat)
    requires Sorted(nodes, ids) && i <= j < |ids|
    ensures ids[j] !in ids[..i]
  {
    forall c | 0 <= c < i ensures ids[c] != ids[j] {}
  }

  class TRBTree {
    var nodes: seq<Node>
    var numElements: nat
    ghost var tree: Tree

    ghost predicate Valid()
      reads this
    {
      && Holds(nodes, Top, tree) && Balanced(tree) && !Red(tree) && Sorted(nodes, Order(tree))
      && numElements == |Order(tree)| && |nodes| == numElements + 1
    }

    constructor ()
      ensures Valid() && tree == Leaf && numElements == 0
    {
      nodes := [Node(Link(NULL, false, false), Link(NULL, false, false), 0, 0)];
      numElements := 0;
      tree := Leaf;
      new;
      HoldsIs(nodes, Top, tree);
    }

    /** Bring the child of x on side s up; parent leads to x on side ps. */
    method Rotate(parent: int, ps: Side, x: int, s: Side)
      requires 0 <= parent < |nodes| && 0 <= x < |nodes| && 0 <= LinkOf(nodes[x], s).to < |nodes|
      modifies this`nodes
      ensures nodes == Swung(old(nodes), parent, ps, x, s) && Relinked(old(nodes), nodes)
    {
      SwungData(nodes, parent, ps, x, s);
      var y, o := LinkOf(nodes[x], s).to, Other(s);
      nodes := SetLink(nodes, x, LinkOf(nodes[y], o).to, s);
      nodes := SetLink(nodes, y, x, o);
      nodes := SetLink(nodes, parent, y, ps);
      if LinkOf(nodes[y], o).trail {
        nodes := SetTrail(nodes, y, o, false);
        nodes := SetTrail(nodes, x, s, true);
        nodes := SetLink(nodes, x, y, s);
      }
    }

    method Paint(x: int, red: bool, ghost path: Path, ghost f: Tree)
      requires Holds(nodes, path, f) && f.Branch? && f.id == x
      modifies this`nodes
      ensures Holds(nodes, path, Coloured(f, red)) && Relinked(old(nodes), nodes)
    {
      PaintHolds(nodes, path, f, red);
      nodes := SetColour(nodes, x, red);
    }

    /** The red uncle case. */
    method Recolour(p: int, y: int, g: int, ghost path: Path, ghost f: Tree)
      requires Holds(nodes, path, f) && path.In? && path.up.In? && path.up.sib.Branch?
      requires p == path.id && g == path.up.id && y == path.up.sib.id
      modifies this`nodes
      ensures Relinked(old(nodes), nodes)
      ensures var d1, s1, d2, s2, up := path.side, path.sib, path.up.side, path.up.sib, path.up.up;
              Holds(nodes, up, Make(d2, true, Make(d1, false, f, p, s1), g, Coloured(s2, false)))
    {
      ghost var d1, s1, d2, s2, up := path.side, path.sib, path.up.side, path.up.sib, path.up.up;
      Ascend(nodes, path, f);
      ghost var low := Make(d1, path.red, f, p, s1);
      Paint(p, false, path.up, low);
      low := Make(d1, false, f, p, s1);
      Ascend(nodes, path.up, low);
      ghost var top := Make(d2, path.up.red, low, g, s2);
      ghost var way := Down(up, top, Other(d2));
      Descend(nodes, up, top, Other(d2));
      Paint(y, false, way, s2);
      Ascend(nodes, way, Coloured(s2, false));
      top := Make(d2, path.up.red, low, g, Coloured(s2, false));
      Paint(g, true, up, top);
    }

    /** The black uncle case: one or two rotations. */
    method Turn(d1: Side, d2: Side, p: int, g: int, parent: int, ps: Side, ghost path: Path, ghost f: Tree)
      requires Holds(nodes, path, f) && f.Branch? && RedTop(path) && path.up.In?
      requires d1 == path.side && p == path.id && d2 == path.up.side && g == path.up.id
      requires parent == Parent(path.up.up) && ps == Hand(path.up.up)
      modifies this`nodes
      ensures Relinked(old(nodes), nodes)
      ensures Holds(nodes, path.up.up, Turned(d1, d2, f, p, path.sib, g, path.up.sib))
    {
      Ascend(nodes, path, f);
      ghost var low := Make(d1, true, f, p, path.sib);
      var y := p;
      if d1 != d2 {
        SwungHolds(nodes, path.up, low, d1);
        y := LinkOf(nodes[p], d1).to;
        Rotate(g, d2, p, d1);
        low := Rotated(low, d1);
      }
      Ascend(nodes, path.up, low);
      TurnTop(d2, g, y, parent, ps, path.up.up, path.up.red, low, path.up.sib);
    }

    /** Colour the grandparent g red and its child y black, and rotate y above g. */
    method TurnTop(d2: Side, g: int, y: int, parent: int, ps: Side, ghost up: Path, ghost red: bool, ghost low: Tree,
                   ghost s2: Tree)
      requires low.Branch? && y == low.id && parent == Parent(up) && ps == Hand(up)
      requires Holds(nodes, up, Make(d2, red, low, g, s2))
      modifies this`nodes
      ensures Relinked(old(nodes), nodes)
      ensures Holds(nodes, up, Rotated(Make(d2, true, Coloured(low, false), g, s2), d2))
    {
      Paint(g, true, up, Make(d2, red, low, g, s2));
      ghost var top := Make(d2, true, low, g, s2);
      ghost var way := Down(up, top, d2);
      Descend(nodes, up, top, d2);
      Paint(y, false, way, low);
      Ascend(nodes, way, Coloured(low, false));
      top := Make(d2, true, Coloured(low, false), g, s2);
      SwungHolds(nodes, up, top, d2);
      Rotate(parent, ps, g, d2);
    }

    /** The body of the fix-up loop. */
    method FixStep(pa: seq<int>, da: seq<Side>, k: nat, ghost path: Path, ghost f: Tree)
      returns (done: bool, ghost path': Path, ghost f': Tree)
      requires Holds(nodes, path, f) && Red(f) && RedTop(path) && path.up.In? && k == Depth(path) + 1 <= |pa| == |da|
      requires pa[..k] == Ancestors(path) && da[..k] == Directions(path)
      modifies this`nodes
      ensures Relinked(old(nodes), nodes) && Holds(nodes, path', f') && f'.Branch?
      ensures !done ==> Red(f') && path' == path.up.up && Fixed(path', f') == Fixed(path, f)
      ensures done ==> Coloured(Plug(path', f'), false) == Fixed(path, f)
    {
      StackTop(pa[..k], da[..k], path);
      UncleReads(nodes, path, f);
      var d1, d2, p, g := da[k - 1], da[k - 2], pa[k - 1], pa[k - 2];
      var y := LinkOf(nodes[g], Other(d2)).to;
      path' := path.up.up;
      done := LinkOf(nodes[g], Other(d2)).trail || !nodes[y].l.low;
      if !done {
        Recolour(p, y, g, path, f);
        f' := Make(d2, true, Make(d1, false, f, p, path.sib), g, Coloured(path.up.sib, false));
      } else {
        Turn(d1, d2, p, g, pa[k - 3], da[k - 3], path, f);
        f' := Turned(d1, d2, f, p, path.sib, g, path.up.sib);
      }
    }

    /** The fix-up loop; f is the new node and the stacks hold its ancestors. */
    method FixUp(pa: seq<int>, da: seq<Side>, depth: nat, ghost path0: Path, ghost f0: Tree)
      requires Holds(nodes, path0, f0) && Red(f0) && depth == Depth(path0) + 1 <= |pa| == |da|
      requires pa[..depth] == Ancestors(path0) && da[..depth] == Directions(path0)
      modifies this`nodes
      ensures Relinked(old(nodes), nodes) && Holds(nodes, Top, Fixed(path0, f0))
    {
      var k := depth;
      ghost var path, f := path0, f0;
      ParentReads(nodes, path, f);
      while k >= 3 && nodes[pa[k - 1]].l.low
        invariant 1 <= k <= depth && k == Depth(path) + 1
        invariant pa[..k] == Ancestors(path) && da[..k] == Directions(path)
        invariant Holds(nodes, path, f) && Red(f) && Fixed(path, f) == Fixed(path0, f0)
        invariant Relinked(old(nodes), nodes)
        invariant path.In? ==> 0 < path.id < |nodes| && nodes[path.id].l.low == path.red
      {
        StackTop(pa[..k], da[..k], path);
        ghost var up := path.up.up;
        var done;
        done, path, f := FixStep(pa, da, k, path, f);
        if done { break; }
        k := k - 2;
        assert pa[..k] == pa[..k + 2][..k] && da[..k] == da[..k + 2][..k];
        ParentReads(nodes, path, f);
      }
      PaintRoot(path, f);
    }

    method PaintRoot(ghost path: Path, ghost f: Tree)
      requires Holds(nodes, path, f) && f.Branch?
      modifies this`nodes
      ensures Relinked(old(nodes), nodes) && Holds(nodes, Top, Coloured(Plug(path, f), false))
    {
      AscendAll(nodes, path, f);
      PlugBranch(path, f);
      RootAt(nodes, Plug(path, f));
      Paint(nodes[HOLDER].l.to, false, Top, Plug(path, f));
    }

    /** Hang a new node below p on side dir. */
    method Plant(p: int, dir: Side, key: int, val: int) returns (n: int)
      requires 0 <= p < |nodes|
      modifies this`nodes
      ensures n == |old(nodes)| && nodes == Planted(old(nodes), p, dir, key, val)
    {
      n := |nodes|;
      nodes := nodes + [Blank(key, val)];
      nodes := SetTrail(nodes, n, Left, true);
      nodes := SetTrail(nodes, n, Right, true);
      nodes := SetLink(nodes, n, LinkOf(nodes[p], dir).to, dir);
      if nodes[HOLDER].l.to != NULL {
        nodes := SetTrail(nodes, p, dir, false);
        nodes := SetLink(nodes, n, p, Other(dir));
      } else {
        nodes := SetLink(nodes, n, NULL, Right);
      }
      nodes := SetLink(nodes, p, n, dir);
      nodes := SetColour(nodes, n, true);
    }

    /** One more ancestor, and the side on which the search leaves it. */
    method Stack(pa: array<int>, da: array<Side>, k0: nat, p: int, dir: Side) returns (k: nat)
      requires k0 < pa.Length == da.Length
      modifies pa, da
      ensures k == k0 + 1 && pa[..k] == old(pa[..k0]) + [p] && da[..k] == old(da[..k0]) + [dir]
    {
      pa[k0], da[k0] := p, dir;
      k := k0 + 1;
    }

    /** One step down: the stacks have room, and the key still belongs below. */
    lemma SearchStep(path: Path, f: Tree, key: int, dir: Side)
      requires Valid() && numElements < 0x80_0000 && Holds(nodes, path, f) && Plug(path, f) == tree && f.Branch?
      requires Between(nodes, path, key) && 0 < f.id < |nodes|
      requires if dir == Left then key < nodes[f.id].key else nodes[f.id].key < key
      ensures Depth(path) + 2 <= MAX_HEIGHT && Reads(nodes, f, dir)
      ensures Between(nodes, Down(path, f, dir), key) && Holds(nodes, Down(path, f, dir), Child(f, dir))
      ensures Plug(Down(path, f, dir), Child(f, dir)) == tree
    {
      PlugOrder(path, f);
      StackFits(path, f, tree);
      ReadsAt(nodes, path, f, dir);
      SearchDown(nodes, path, f, key, dir);
      Descend(nodes, path, f, dir);
    }

    /** The search of try_insert: the node with that key, or NULL and the stacks filled with the
        way to the place where the key belongs. */
    method Search(key: int, pa: array<int>, da: array<Side>) returns (r: int, k: nat, ghost path: Path)
      requires Valid() && numElements < 0x80_0000 && pa.Length == da.Length == MAX_HEIGHT
      modifies pa, da
      ensures r != NULL ==> r in Order(tree) && Key(nodes, r) == key
      ensures r == NULL ==> Plug(path, Leaf) == tree && Between(nodes, path, key) && Holds(nodes, path, Leaf)
      ensures r == NULL ==>
                k == Depth(path) + 1 <= MAX_HEIGHT && pa[..k] == Ancestors(path) && da[..k] == Directions(path)
    {
      ghost var f := tree;
      path := Top;
      HoldsIs(nodes, Top, tree);
      RootAt(nodes, tree);
      pa[0], da[0], k, r := HOLDER, Left, 1, NULL;
      var p := nodes[HOLDER].l.to;
      while p != NULL
        invariant Holds(nodes, path, f) && Plug(path, f) == tree && Between(nodes, path, key)
        invariant p == RootOf(f) && (f.Branch? ==> 0 < f.id < |nodes|)
        invariant k == Depth(path) + 1 <= MAX_HEIGHT && pa[..k] == Ancestors(path) && da[..k] == Directions(path)
        decreases f
      {
        if nodes[p].key == key {
          RootIn(path, f);
          r := p;
          return;
        }
        var dir := if nodes[p].key < key then Right else Left;
        SearchStep(path, f, key, dir);
        k := Stack(pa, da, k, p, dir);
        path, f := Down(path, f, dir), Child(f, dir);
        p := if LinkOf(nodes[p], dir).trail then NULL else LinkOf(nodes[p], dir).to;
      }
    }

    /** Insertion leaves a stored key alone and adds any other, in order, to a red-black tree
        whose trails lead to the neighbours. */
    method TryInsert(key: int, val: int) returns (r: int)
      requires Valid() && numElements < 0x80_0000
      modifies this
      ensures Valid() && r in Order(tree) && Key(nodes, r) == key
      ensures (exists x :: x in old(Order(tree)) && Key(old(nodes), x) == key) ==>
                nodes == old(nodes) && tree == old(tree) && numElements == old(numElements)
      ensures (forall x :: x in old(Order(tree)) ==> Key(old(nodes), x) != key) ==>
                && r == |old(nodes)| < |nodes| && nodes[r].val == val && numElements == old(numElements) + 1
                && DataKept(old(nodes), nodes)
                && exists i :: 0 <= i <= old(numElements)
                     && Order(tree) == old(Order(tree))[..i] + [r] + old(Order(tree))[i..]
    {
      var pa, da := new int[MAX_HEIGHT], new Side[MAX_HEIGHT];
      var k;
      ghost var path;
      r, k, path := Search(key, pa, da);
      if r == NULL {
        PlugOrder(path, Leaf);
        Absent(nodes, path, key);
        r := AddAt(key, val, pa, da, k, path);
      }
    }

    method AddAt(key: int, val: int, pa: array<int>, da: array<Side>, k: nat, ghost path: Path) returns (r: int)
      requires Valid() && Plug(path, Leaf) == tree && Between(nodes, path, key) && Holds(nodes, path, Leaf)
      requires k == Depth(path) + 1 <= pa.Length && pa.Length == da.Length && pa[..k] == Ancestors(path)
      requires da[..k] == Directions(path)
      modifies this
      ensures Valid() && r == |old(nodes)| < |nodes| && nodes[r].key == key && nodes[r].val == val
      ensures numElements == old(numElements) + 1
      ensures DataKept(old(nodes), nodes) && r in Order(tree)
      ensures exists i ::
                0 <= i <= old(numElements) && Order(tree) == old(Order(tree))[..i] + [r] + old(Order(tree))[i..]
    {
      PlugOrder(path, Leaf);
      AddedLast(nodes, path, tree);
      assert pa[..][..k] == pa[..k] && da[..][..k] == da[..k];
      PlantedHolds(nodes, path, key, val);
      PlantedData(nodes, Parent(path), Hand(path), key, val, path);
      ghost var was, order, i := nodes, Order(tree), |Before(path)|;
      assert order[..i] == Before(path) && order[i..] == After(path);
      r := Plant(pa[k - 1], da[k - 1], key, val);
      numElements := numElements + 1;
      FixUp(pa[..], da[..], k, path, Branch(true, Leaf, r, Leaf));
      tree := Fixed(path, Branch(true, Leaf, r, Leaf));
      Inserted(was, nodes, path, r, tree);
      assert Order(tree)[i] == r;
      assert Order(tree) == order[..i] + [r] + order[i..];
    }

    method TryFind(key: int) returns (r: int)
      requires Valid()
      ensures r == NULL <==> forall x :: x in Order(tree) ==> Key(nodes, x) != key
      ensures r != NULL ==> r in Order(tree) && Key(nodes, r) == key
    {
      ghost var path, f := Top, tree;
      RootAt(nodes, tree);
      var p := nodes[HOLDER].l.to;
      while p != NULL
        invariant Holds(nodes, path, f) && Plug(path, f) == tree && Between(nodes, path, key)
        invariant p == RootOf(f) && (f.Branch? ==> 0 < f.id < |nodes|)
        decreases f
      {
        PlugOrder(path, f);
        if nodes[p].key == key {
          RootIn(path, f);
          return p;
        }
        var dir := if key < nodes[p].key then Left else Right;
        ReadsAt(nodes, path, f, dir);
        SearchDown(nodes, path, f, key, dir);
        Descend(nodes, path, f, dir);
        path, f := Down(path, f, dir), Child(f, dir);
        p := if LinkOf(nodes[p], dir).trail then NULL else LinkOf(nodes[p], dir).to;
      }
      PlugOrder(path, Leaf);
      Absent(nodes, path, key);
      return NULL;
    }

    /** Follow left children from p, to the first node after path in order; seen are the nodes
        read, none of them among the first i in order. */
    method Leftmost(p: int, ghost path: Path, ghost t: Tree, ghost i: nat) returns (q: int, ghost seen: seq<int>)
      requires Valid() && Holds(nodes, path, t) && Plug(path, t) == tree && t.Branch? && p == t.id
      requires i <= |Before(path)|
      ensures |Before(path)| < |Order(tree)| && q == Order(tree)[|Before(path)|]
      ensures q in seen && forall x :: x in seen ==> i <= |Order(tree)| && x !in Order(tree)[..i]
    {
      ghost var w, f := path, t;
      q := p;
      ReadsAt(nodes, w, f, Left);
      LaterNode(nodes, tree, w, f, i);
      seen := [q];
      while !nodes[q].l.trail
        invariant Holds(nodes, w, f) && Plug(w, f) == tree && f.Branch? && q == f.id && Reads(nodes, f, Left)
        invariant Before(w) == Before(path) && q in seen && i <= |Order(tree)|
        invariant forall x :: x in seen ==> x !in Order(tree)[..i]
        decreases f
      {
        q := nodes[q].l.to;
        Descend(nodes, w, f, Left);
        w, f := Down(w, f, Left), f.left;
        ReadsAt(nodes, w, f, Left);
        LaterNode(nodes, tree, w, f, i);
        seen := seen + [q];
      }
      PlugOrder(w, f);
      assert Order(f) == [f.id] + Order(f.right);
    }

    /** From the i-th node in order to the next; seen are the nodes read, none of them among the
        first i. */
    method Advance(p: int, ghost i: nat) returns (n: int, ghost seen: seq<int>)
      requires Valid() && p != NULL && p == Nth(Order(tree), i)
      ensures n == Nth(Order(tree), i + 1)
      ensures p in seen && i <= |Order(tree)| && forall x :: x in seen ==> x !in Order(tree)[..i]
    {
      InTree(nodes, tree, p, i);
      ghost var path, f := HoldsAt(nodes, Top, tree, i);
      ReadsAt(nodes, path, f, Right);
      NextTrail(nodes, tree, path, f, i);
      NotYet(nodes, Order(tree), i, i);
      seen := [p];
      n := nodes[p].r.to;
      if !nodes[p].r.trail {
        Descend(nodes, path, f, Right);
        ghost var more;
        n, more := Leftmost(n, Down(path, f, Right), f.right, i);
        seen := seen + more;
      }
    }

    /** The destructor's walk: every node once, in ascending order of keys.  looks lists every node
        read together with the number of nodes deleted by then: none of them is among these. */
    method Walk() returns (deleted: seq<int>, ghost looks: seq<Glance>)
      requires Valid()
      ensures deleted == Order(tree) && Sorted(nodes, deleted)
      ensures AllLive(deleted, looks)
      ensures forall x :: x in deleted ==> LookedAt(looks, x)
    {
      deleted, looks := [], [];
      RootAt(nodes, tree);
      var p := nodes[HOLDER].l.to;
      if p != NULL {
        ghost var seen;
        p, seen := Leftmost(p, Top, tree, 0);
        looks := At(seen, 0);
      }
      while p != NULL
        invariant |deleted| <= |Order(tree)| && deleted == Order(tree)[..|deleted|] && p == Nth(Order(tree), |deleted|)
        invariant AllLive(Order(tree), looks)
        invariant forall x :: x in deleted ==> LookedAt(looks, x)
        decreases |Order(tree)| - |deleted|
      {
        InTree(nodes, tree, p, |deleted|);
        ghost var i := |deleted|;
        var n;
        ghost var seen;
        n, seen := Advance(p, i);
        LiveGrows(Order(tree), looks, seen, i);
        forall x | x in deleted ensures LookedAt(looks + At(seen, i), x) { LookedGrows(looks, At(seen, i), x); }
        looks := looks + At(seen, i);
        assert Glance(p, i) in looks;
        deleted := deleted + [p];
        p := n;
      }
      if |deleted| < |Order(tree)| {
        TrailsLeadToNeighbours(nodes, tree, |deleted|);
        assert false;
      }
    }
  }

  /** A node read, and how many nodes were deleted by then. */
  datatype Glance = Glance(node: int, count: nat)

  /** No node is read after its deletion, when ids are deleted in this order. */
  ghost predicate AllLive(ids: seq<int>, looks: seq<Glance>) {
    forall r {:trigger r in looks} :: r in looks ==> r.count <= |ids| && r.node !in ids[..r.count]
  }

  ghost predicate LookedAt(looks: seq<Glance>, x: int) { exists r :: r in looks && r.node == x }

  /** Reading the nodes seen, none of them deleted yet. */
  lemma LiveGrows(ids: seq<int>, looks: seq<Glance>, seen: seq<int>, n: nat)
    requires AllLive(ids, looks) && n <= |ids| && forall x :: x in seen ==> x !in ids[..n]
    ensures AllLive(ids, looks + At(seen, n))
  {}

  /** A node that has been looked at still has, when more are. */
  lemma LookedGrows(looks: seq<Glance>, more: seq<Glance>, x: int)
    requires LookedAt(looks, x)
    ensures LookedAt(looks + more, x)
  {
    var r :| r in looks && r.node == x;
    assert r in looks + more;
  }

  /** The nodes read while n nodes are deleted. */
  ghost function At(seen: seq<int>, n: nat): (r: seq<Glance>)
    ensures forall p {:trigger p in r} :: p in r <==> p.count == n && p.node in seen
  {
    if seen == [] then [] else
      assert seen == [seen[0]] + seen[1..];
      [Glance(seen[0], n)] + At(seen[1..], n)
  }

  /** The root of a subtree comes after everything before the subtree. */
  lemma LaterNode(nodes: seq<Node>, t: Tree, w: Path, f: Tree, i: nat)
    requires f.Branch? && Plug(w, f) == t && Sorted(nodes, Order(t)) && i <= |Before(w)|
    ensures i <= |Order(t)| && f.id !in Order(t)[..i]
  {
    PlugOrder(w, f);
    var j := |Before(w)| + |Order(f.left)|;
    assert Order(t)[j] == f.id;
    NotYet(nodes, Order(t), i, j);
  }

  lemma RootIn(path: Path, f: Tree)
    requires f.Branch?
    ensures f.id in Order(Plug(path, f))
  {
    PlugOrder(path, f);
    assert Around(path, f)[|Before(path)| + |Order(f.left)|] == f.id;
  }

  lemma SwungData(nodes: seq<Node>, parent: int, ps: Side, x: int, s: Side)
    requires 0 <= parent < |nodes| && 0 <= x < |nodes| && 0 <= LinkOf(nodes[x], s).to < |nodes|
    ensures Relinked(nodes, Swung(nodes, parent, ps, x, s))
  {}

  lemma InTree(nodes: seq<Node>, t: Tree, p: int, i: nat)
    requires Holds(nodes, Top, t) && p == Nth(Order(t), i) && p != NULL
    ensures i < |Order(t)| && p == Order(t)[i]
  {}

  lemma Absent(nodes: seq<Node>, path: Path, key: int)
    requires Between(nodes, path, key)
    ensures forall x :: x in Around(path, Leaf) ==> Key(nodes, x) != key
  {
    forall x | x in Around(path, Leaf) ensures Key(nodes, x) != key {
      SearchFails(nodes, path, key, x);
    }
  }

  lemma AddedLast(nodes: seq<Node>, path: Path, t: Tree)
    requires Holds(nodes, path, Leaf) && t == Plug(path, Leaf)
    ensures forall x :: x in Around(path, Leaf) ==> 0 < x < |nodes|
  {
    AscendAll(nodes, path, Leaf);
    HoldsIs(nodes, Top, t);
    Positive(nodes, t, NULL, NULL);
    PlugOrder(path, Leaf);
    forall x | x in Around(path, Leaf) ensures 0 < x < |nodes| {
      OrderIds(t, x);
    }
  }

  lemma PlantedData(nodes: seq<Node>, p: int, s: Side, key: int, val: int, path: Path)
    requires Holds(nodes, path, Leaf) && p == Parent(path) && s == Hand(path) && 0 <= p < |nodes|
    ensures DataKept(nodes, Planted(nodes, p, s, key, val))
    ensures var r := Planted(nodes, p, s, key, val); r[|nodes|].key == key && r[|nodes|].val == val
  {
    HoldsIs(nodes, path, Leaf);
    HolderFull(nodes, path, NULL);
    PlantedAt(nodes, p, s, key, val);
  }

  /** The tree after an insertion. */
  lemma Inserted(was: seq<Node>, nodes: seq<Node>, path: Path, r: int, t: Tree)
    requires r == |was| && |nodes| == r + 1 && DataKept(was, nodes)
    requires Balanced(Plug(path, Leaf)) && !Red(Plug(path, Leaf)) && Sorted(was, Around(path, Leaf))
    requires forall x :: x in Around(path, Leaf) ==> 0 < x < |was|
    requires Between(was, path, nodes[r].key)
    requires t == Fixed(path, Branch(true, Leaf, r, Leaf))
    ensures Balanced(t) && !Red(t) && Order(t) == Before(path) + [r] + After(path) && Sorted(nodes, Order(t))
  {
    PlugFits(path, Leaf);
    var n := Branch(true, Leaf, r, Leaf);
    FixedBalanced(path, n);
    FixedOrder(path, n);
    assert Order(n) == [r];
    assert Around(path, Leaf) == Before(path) + After(path);
    SortedWith(was, nodes, Before(path), r, After(path));
  }
}
