/**
 Threaded red-black trees in memory, as src/trbtree.hh lays them out, and what its link
 operations do to the tree they represent.  A node is an index into the sequence of nodes;
 node 0 stands for the root holder, whose left link is the root pointer.
 */
module RbArena {
  import opened RbTree
  import opened Sealing

  /** A tagged pointer: address, trail bit, lowest bit. */
  datatype Link = Link(to: int, trail: bool, low: bool)

  /** The lowest bit of the left link is the node's colour, set for red. */
  datatype Node = Node(l: Link, r: Link, key: int, val: int)

  const NULL := -1
  const HOLDER := 0

  // ---- the node helpers ----

  function LinkOf(n: Node, s: Side): Link { if s == Left then n.l else n.r }

  function WithLink(n: Node, s: Side, k: Link): Node { if s == Left then n.(l := k) else n.(r := k) }

  /** set_link keeps the trail bit of that side and the colour. */
  function SetLink(nodes: seq<Node>, x: int, to: int, s: Side): (r: seq<Node>)
    requires 0 <= x < |nodes|
    ensures |r| == |nodes|
  {
    nodes[x := WithLink(nodes[x], s, Link(to, LinkOf(nodes[x], s).trail, nodes[x].l.low))]
  }

  function SetTrail(nodes: seq<Node>, x: int, s: Side, trail: bool): (r: seq<Node>)
    requires 0 <= x < |nodes|
    ensures |r| == |nodes|
  {
    nodes[x := WithLink(nodes[x], s, LinkOf(nodes[x], s).(trail := trail))]
  }

  function SetColour(nodes: seq<Node>, x: int, red: bool): (r: seq<Node>)
    requires 0 <= x < |nodes|
    ensures |r| == |nodes|
  {
    nodes[x := nodes[x].(l := nodes[x].l.(low := red))]
  }

  // ---- representation ----

  function RootOf(t: Tree): int { if t.Leaf? then NULL else t.id }

  /** The link leads to the child hole, or is a trail to the given neighbour. */
  predicate Points(k: Link, hole: int, neighbour: int) {
    k.trail == (hole == NULL) && k.to == if hole == NULL then neighbour else hole
  }

  /** Node x has that colour, and on side s the child hole, on the other the child sib; a and b
      are the neighbours in order beyond them. */
  predicate Is(nodes: seq<Node>, x: int, red: bool, s: Side, hole: int, sib: int, a: int, b: int) {
    && 0 < x < |nodes| && nodes[x].l.low == red
    && Points(LinkOf(nodes[x], s), hole, a) && Points(LinkOf(nodes[x], Other(s)), sib, b)
  }

  /** nodes hold tree t between the neighbours lo and hi. */
  ghost predicate Rep(nodes: seq<Node>, t: Tree, lo: int, hi: int) {
    match t
    case Leaf => true
    case Branch(red, l, x, r) =>
      && Is(nodes, x, red, Left, RootOf(l), RootOf(r), lo, hi)
      && Rep(nodes, l, lo, x) && Rep(nodes, r, x, hi)
  }

  /** The neighbours of the subtree at the end of a path. */
  function Lo(path: Path): int {
    match path
    case Top => NULL
    case In(s, _, id, _, up) => if s == Left then Lo(up) else id
  }

  function Hi(path: Path): int {
    match path
    case Top => NULL
    case In(s, _, id, _, up) => if s == Left then id else Hi(up)
  }

  function Bound(path: Path, s: Side): int { if s == Left then Lo(path) else Hi(path) }

  /** The part of the representation around a subtree with root hole. */
  ghost predicate PathRep(nodes: seq<Node>, path: Path, hole: int) {
    match path
    case Top => |nodes| > 0 && nodes[HOLDER].l == Link(hole, false, false)
    case In(s, red, id, sib, up) =>
      && Is(nodes, id, red, s, hole, RootOf(sib), Bound(up, s), Bound(up, Other(s)))
      && (if s == Left then Rep(nodes, sib, id, Hi(up)) else Rep(nodes, sib, Lo(up), id))
      && PathRep(nodes, up, id)
  }

  // ---- no node is used twice ----

  ghost function Ids(t: Tree): set<int> {
    match t
    case Leaf => {}
    case Branch(_, l, x, r) => Ids(l) + {x} + Ids(r)
  }

  ghost function PathIds(path: Path): set<int> {
    match path
    case Top => {}
    case In(_, _, id, sib, up) => {id} + Ids(sib) + PathIds(up)
  }

  ghost predicate Proper(t: Tree) {
    match t
    case Leaf => true
    case Branch(_, l, x, r) => Proper(l) && Proper(r) && x !in Ids(l) && x !in Ids(r) && Ids(l) !! Ids(r)
  }

  ghost predicate PathProper(path: Path) {
    match path
    case Top => true
    case In(_, _, id, sib, up) =>
      Proper(sib) && PathProper(up) && id !in Ids(sib) && id !in PathIds(up) && Ids(sib) !! PathIds(up)
  }

  /** nodes hold the tree that has subtree f at path. */
  ghost predicate Whole(nodes: seq<Node>, path: Path, f: Tree) {
    && PathRep(nodes, path, RootOf(f)) && Rep(nodes, f, Lo(path), Hi(path))
    && Proper(f) && PathProper(path) && Ids(f) !! PathIds(path)
  }

  lemma {:induction false} Positive(nodes: seq<Node>, t: Tree, lo: int, hi: int)
    requires Rep(nodes, t, lo, hi)
    ensures forall x {:trigger x in Ids(t)} :: x in Ids(t) ==> 0 < x < |nodes|
  {
    if t.Branch? {
      Positive(nodes, t.left, lo, t.id);
      Positive(nodes, t.right, t.id, hi);
    }
  }

  lemma {:induction false} PathPositive(nodes: seq<Node>, path: Path, hole: int)
    requires PathRep(nodes, path, hole)
    ensures forall x {:trigger x in PathIds(path)} :: x in PathIds(path) ==> 0 < x < |nodes|
  {
    match path
    case Top =>
    case In(s, _, id, sib, up) =>
      if s == Left { Positive(nodes, sib, id, Hi(up)); } else { Positive(nodes, sib, Lo(up), id); }
      PathPositive(nodes, up, id);
  }

  // ---- moving along the path ----

  /** From a node to its child on side s. */
  function Down(path: Path, t: Tree, s: Side): Path
    requires t.Branch?
  {
    In(s, t.red, t.id, Child(t, Other(s)), path)
  }

  lemma GoDown(nodes: seq<Node>, path: Path, t: Tree, s: Side)
    requires Whole(nodes, path, t) && t.Branch?
    ensures Whole(nodes, Down(path, t, s), Child(t, s))
    ensures Plug(Down(path, t, s), Child(t, s)) == Plug(path, t)
  {}

  lemma GoUp(nodes: seq<Node>, path: Path, f: Tree)
    requires Whole(nodes, path, f) && path.In?
    ensures Whole(nodes, path.up, Make(path.side, path.red, f, path.id, path.sib))
  {
    var t := Make(path.side, path.red, f, path.id, path.sib);
    assert Is(nodes, path.id, path.red, Left, RootOf(t.left), RootOf(t.right), Lo(path.up), Hi(path.up));
  }

  lemma {:induction false} GoTop(nodes: seq<Node>, path: Path, f: Tree)
    requires Whole(nodes, path, f)
    ensures Whole(nodes, Top, Plug(path, f))
  {
    if path.In? {
      GoUp(nodes, path, f);
      GoTop(nodes, path.up, Make(path.side, path.red, f, path.id, path.sib));
    }
  }

  // ---- locality ----

  ghost predicate Same(nodes: seq<Node>, nodes': seq<Node>, x: int) {
    0 <= x < |nodes| <= |nodes'| && nodes'[x] == nodes[x]
  }

  lemma {:induction false} RepKept(nodes: seq<Node>, nodes': seq<Node>, t: Tree, lo: int, hi: int)
    requires Rep(nodes, t, lo, hi)
    requires forall x {:trigger x in Ids(t)} :: x in Ids(t) ==> Same(nodes, nodes', x)
    ensures Rep(nodes', t, lo, hi)
  {
    if t.Branch? {
      assert t.id in Ids(t);
      RepKept(nodes, nodes', t.left, lo, t.id);
      RepKept(nodes, nodes', t.right, t.id, hi);
    }
  }

  lemma {:induction false} PathKept(nodes: seq<Node>, nodes': seq<Node>, path: Path, hole: int)
    requires PathRep(nodes, path, hole) && Same(nodes, nodes', HOLDER)
    requires forall x {:trigger x in PathIds(path)} :: x in PathIds(path) ==> Same(nodes, nodes', x)
    ensures PathRep(nodes', path, hole)
  {
    match path
    case Top =>
    case In(s, _, id, sib, up) =>
      assert id in PathIds(path);
      if s == Left { RepKept(nodes, nodes', sib, id, Hi(up)); } else { RepKept(nodes, nodes', sib, Lo(up), id); }
      PathKept(nodes, nodes', up, id);
  }

  /** The node whose link leads to the subtree, and that link. */
  function Parent(path: Path): int { if path.Top? then HOLDER else path.id }
  function Hand(path: Path): Side { if path.Top? then Left else path.side }

  /** The link above the subtree is led to hole', and nothing else on the path changes. */
  lemma PathLed(nodes: seq<Node>, nodes': seq<Node>, path: Path, hole: int, hole': int)
    requires PathRep(nodes, path, hole) && PathProper(path) && hole' > 0 && |nodes| <= |nodes'|
    requires forall x {:trigger x in PathIds(path)} :: x in PathIds(path) && x != Parent(path) ==>
               Same(nodes, nodes', x)
    requires path.In? ==> Same(nodes, nodes', HOLDER)
    requires var p, s := Parent(path), Hand(path);
             && 0 <= p < |nodes| && nodes'[p].l.low == nodes[p].l.low
             && LinkOf(nodes'[p], s).to == hole' && !LinkOf(nodes'[p], s).trail
             && (path.In? ==> LinkOf(nodes'[p], Other(s)).to == LinkOf(nodes[p], Other(s)).to
                              && LinkOf(nodes'[p], Other(s)).trail == LinkOf(nodes[p], Other(s)).trail)
    ensures PathRep(nodes', path, hole')
  {
    match path
    case Top =>
    case In(s, _, id, sib, up) =>
      PathPositive(nodes, path, hole);
      assert forall x :: x in Ids(sib) || x in PathIds(up) ==> x in PathIds(path) && x != id;
      if s == Left { RepKept(nodes, nodes', sib, id, Hi(up)); } else { RepKept(nodes, nodes', sib, Lo(up), id); }
      PathKept(nodes, nodes', up, id);
  }

  // ---- colours ----

  lemma ColourWhole(nodes: seq<Node>, path: Path, f: Tree, red: bool)
    requires Whole(nodes, path, f) && f.Branch?
    ensures 0 < f.id < |nodes| && Whole(SetColour(nodes, f.id, red), path, Coloured(f, red))
  {
    ColourRep(nodes, f, red, Lo(path), Hi(path));
    PathPositive(nodes, path, f.id);
    PathKept(nodes, SetColour(nodes, f.id, red), path, f.id);
  }

  lemma ColourRep(nodes: seq<Node>, f: Tree, red: bool, lo: int, hi: int)
    requires Rep(nodes, f, lo, hi) && Proper(f) && f.Branch?
    ensures 0 < f.id < |nodes| && Rep(SetColour(nodes, f.id, red), Coloured(f, red), lo, hi)
  {
    var nodes' := SetColour(nodes, f.id, red);
    Positive(nodes, f.left, lo, f.id);
    Positive(nodes, f.right, f.id, hi);
    RepKept(nodes, nodes', f.left, lo, f.id);
    RepKept(nodes, nodes', f.right, f.id, hi);
  }

  // ---- rotation ----

  /** The child of x on side s comes up; ps is the side of parent that led to x. */
  function Swung(nodes: seq<Node>, parent: int, ps: Side, x: int, s: Side): (r: seq<Node>)
    requires 0 <= parent < |nodes| && 0 <= x < |nodes| && 0 <= LinkOf(nodes[x], s).to < |nodes|
    ensures |r| == |nodes|
  {
    var y, o := LinkOf(nodes[x], s).to, Other(s);
    var n1 := SetLink(nodes, x, LinkOf(nodes[y], o).to, s);
    var n2 := SetLink(n1, y, x, o);
    var n3 := SetLink(n2, parent, y, ps);
    if LinkOf(n3[y], o).trail then
      SetLink(SetTrail(SetTrail(n3, y, o, false), x, s, true), x, y, s)
    else n3
  }

  /** What a rotation changes: the old root x, the new root y and their parent. */
  lemma SwungOld(nodes: seq<Node>, parent: int, ps: Side, x: int, s: Side, y: int)
    requires 0 <= parent < |nodes| && 0 <= x < |nodes| && 0 <= y < |nodes| && y == LinkOf(nodes[x], s).to
    requires parent != x && parent != y && x != y && !LinkOf(nodes[x], s).trail
    ensures var r, o := Swung(nodes, parent, ps, x, s), Other(s);
            && r[x].l.low == nodes[x].l.low && LinkOf(r[x], o).to == LinkOf(nodes[x], o).to
            && LinkOf(r[x], o).trail == LinkOf(nodes[x], o).trail
            && LinkOf(r[x], s).trail == LinkOf(nodes[y], o).trail
            && LinkOf(r[x], s).to == (if LinkOf(nodes[y], o).trail then y else LinkOf(nodes[y], o).to)
  {}

  lemma SwungNew(nodes: seq<Node>, parent: int, ps: Side, x: int, s: Side, y: int)
    requires 0 <= parent < |nodes| && 0 <= x < |nodes| && 0 <= y < |nodes| && y == LinkOf(nodes[x], s).to
    requires parent != x && parent != y && x != y && !LinkOf(nodes[x], s).trail
    ensures var r, o := Swung(nodes, parent, ps, x, s), Other(s);
            && r[y].l.low == nodes[y].l.low && LinkOf(r[y], s).to == LinkOf(nodes[y], s).to
            && LinkOf(r[y], s).trail == LinkOf(nodes[y], s).trail
            && !LinkOf(r[y], o).trail && LinkOf(r[y], o).to == x
  {}

  lemma SwungParent(nodes: seq<Node>, parent: int, ps: Side, x: int, s: Side, y: int)
    requires 0 <= parent < |nodes| && 0 <= x < |nodes| && 0 <= y < |nodes| && y == LinkOf(nodes[x], s).to
    requires parent != x && parent != y && x != y && !LinkOf(nodes[x], s).trail
    ensures var r := Swung(nodes, parent, ps, x, s);
            && (forall i {:trigger r[i]} :: 0 <= i < |nodes| && i != parent && i != x && i != y ==> r[i] == nodes[i])
            && r[parent].l.low == nodes[parent].l.low && LinkOf(r[parent], ps).to == y
            && LinkOf(r[parent], ps).trail == LinkOf(nodes[parent], ps).trail
            && LinkOf(r[parent], Other(ps)) == LinkOf(nodes[parent], Other(ps))
  {}

  lemma ParentApart(nodes: seq<Node>, path: Path, f: Tree)
    requires Whole(nodes, path, f) && f.Branch?
    ensures 0 <= Parent(path) < |nodes| && Parent(path) !in Ids(f)
    ensures LinkOf(nodes[Parent(path)], Hand(path)).to == f.id && !LinkOf(nodes[Parent(path)], Hand(path)).trail
  {
    Positive(nodes, f, Lo(path), Hi(path));
    if path.In? { assert path.id in PathIds(path); }
  }

  lemma RotatedProper(t: Tree, s: Side)
    requires t.Branch? && Child(t, s).Branch? && Proper(t)
    ensures Proper(Rotated(t, s)) && Ids(Rotated(t, s)) == Ids(t)
  {}

  /** A rotation in memory is a rotation of the tree: the neighbours of every subtree stay. */
  lemma SwungWhole(nodes: seq<Node>, path: Path, t: Tree, s: Side)
    requires Whole(nodes, path, t) && t.Branch? && Child(t, s).Branch?
    ensures 0 <= Parent(path) < |nodes| && 0 <= t.id < |nodes| && LinkOf(nodes[t.id], s).to == Child(t, s).id
    ensures 0 <= Child(t, s).id < |nodes|
    ensures Whole(Swung(nodes, Parent(path), Hand(path), t.id, s), path, Rotated(t, s))
  {
    SwungApart(nodes, path, t, s);
    var r := SwungTurns(nodes, path, t, s);
    SwungPath(nodes, r, path, t, s);
    SwungRep(nodes, r, t, s, Lo(path), Hi(path));
    RotatedProper(t, s);
  }

  /** The subtree is turned, and what leads to it now leads to its new root. */
  lemma SwungTurns(nodes: seq<Node>, path: Path, t: Tree, s: Side) returns (r: seq<Node>)
    requires t.Branch? && Child(t, s).Branch? && 0 <= Parent(path) < |nodes| && Parent(path) !in Ids(t)
    requires 0 < t.id < |nodes| && 0 < Child(t, s).id < |nodes| && t.id in Ids(t) && Child(t, s).id in Ids(t)
    requires t.id != Child(t, s).id && LinkOf(nodes[t.id], s).to == Child(t, s).id && !LinkOf(nodes[t.id], s).trail
    requires forall x {:trigger x in Ids(t)} :: x in Ids(t) ==> 0 < x < |nodes|
    ensures r == Swung(nodes, Parent(path), Hand(path), t.id, s) && |r| == |nodes| && Turns(nodes, r, t, s)
    ensures forall i {:trigger r[i]} :: 0 <= i < |nodes| && i != Parent(path) && i != t.id && i != Child(t, s).id ==>
              r[i] == nodes[i]
    ensures var p, ps := Parent(path), Hand(path);
            && r[p].l.low == nodes[p].l.low && LinkOf(r[p], ps).to == Child(t, s).id
            && LinkOf(r[p], ps).trail == LinkOf(nodes[p], ps).trail
            && LinkOf(r[p], Other(ps)) == LinkOf(nodes[p], Other(ps))
  {
    SwungOld(nodes, Parent(path), Hand(path), t.id, s, Child(t, s).id);
    SwungNew(nodes, Parent(path), Hand(path), t.id, s, Child(t, s).id);
    SwungParent(nodes, Parent(path), Hand(path), t.id, s, Child(t, s).id);
    r := Swung(nodes, Parent(path), Hand(path), t.id, s);
  }

  /** The three nodes a rotation relinks are different, and the parent is not in the subtree. */
  lemma SwungApart(nodes: seq<Node>, path: Path, t: Tree, s: Side)
    requires Whole(nodes, path, t) && t.Branch? && Child(t, s).Branch?
    ensures 0 <= Parent(path) < |nodes| && Parent(path) !in Ids(t)
    ensures 0 < t.id < |nodes| && 0 < Child(t, s).id < |nodes| && t.id in Ids(t) && Child(t, s).id in Ids(t)
    ensures t.id != Child(t, s).id && Parent(path) != t.id && Parent(path) != Child(t, s).id
    ensures LinkOf(nodes[t.id], s).to == Child(t, s).id && !LinkOf(nodes[t.id], s).trail
    ensures forall x {:trigger x in Ids(t)} :: x in Ids(t) ==> 0 < x < |nodes|
  {
    ParentApart(nodes, path, t);
    Positive(nodes, t, Lo(path), Hi(path));
    assert t.id in Ids(t) && Child(t, s).id in Ids(t);
  }

  lemma SwungPath(nodes: seq<Node>, r: seq<Node>, path: Path, t: Tree, s: Side)
    requires Whole(nodes, path, t) && t.Branch? && Child(t, s).Branch? && |r| == |nodes|
    requires forall i {:trigger r[i]} :: 0 <= i < |nodes| && i != Parent(path) && i != t.id && i != Child(t, s).id ==>
               r[i] == nodes[i]
    requires var p, ps := Parent(path), Hand(path);
             && 0 <= p < |nodes| && r[p].l.low == nodes[p].l.low && LinkOf(r[p], ps).to == Child(t, s).id
             && LinkOf(r[p], ps).trail == LinkOf(nodes[p], ps).trail
                  && LinkOf(r[p], Other(ps)) == LinkOf(nodes[p], Other(ps))
    ensures PathRep(r, path, Child(t, s).id)
  {
    ParentApart(nodes, path, t);
    PathPositive(nodes, path, t.id);
    Positive(nodes, t, Lo(path), Hi(path));
    assert t.id in Ids(t) && Child(t, s).id in Ids(t);
    PathLed(nodes, r, path, t.id, Child(t, s).id);
  }

  /** r differs from nodes, on the subtree t, as a rotation of its child on side s does. */
  ghost predicate Turns(nodes: seq<Node>, r: seq<Node>, t: Tree, s: Side)
    requires t.Branch? && Child(t, s).Branch?
  {
    var x, y, o := t.id, Child(t, s).id, Other(s);
    && |r| == |nodes| && 0 < x < |nodes| && 0 < y < |nodes|
    && r[x].l.low == nodes[x].l.low && LinkOf(r[x], o).to == LinkOf(nodes[x], o).to
         && LinkOf(r[x], o).trail == LinkOf(nodes[x], o).trail
    && LinkOf(r[x], s).trail == LinkOf(nodes[y], o).trail
    && LinkOf(r[x], s).to == (if LinkOf(nodes[y], o).trail then y else LinkOf(nodes[y], o).to)
    && r[y].l.low == nodes[y].l.low && LinkOf(r[y], s).to == LinkOf(nodes[y], s).to
         && LinkOf(r[y], s).trail == LinkOf(nodes[y], s).trail
    && !LinkOf(r[y], o).trail && LinkOf(r[y], o).to == x
    && forall i {:trigger i in Ids(t)} :: i in Ids(t) && i != x && i != y ==> Same(nodes, r, i)
  }

  lemma SwungSubtrees(nodes: seq<Node>, r: seq<Node>, t: Tree, s: Side, lo: int, hi: int)
    requires Rep(nodes, t, lo, hi) && Proper(t) && t.Branch? && Child(t, s).Branch? && Turns(nodes, r, t, s)
    ensures var y := Child(t, s);
            if s == Left then Rep(r, y.left, lo, y.id) && Rep(r, y.right, y.id, t.id) && Rep(r, t.right, t.id, hi)
            else Rep(r, y.right, y.id, hi) && Rep(r, y.left, t.id, y.id) && Rep(r, t.left, lo, t.id)
  {
    var y := Child(t, s);
    assert forall i :: i in Ids(y.left) || i in Ids(y.right) || i in Ids(Child(t, Other(s))) ==>
           i in Ids(t) && i != t.id && i != y.id;
    if s == Left {
      RepKept(nodes, r, y.left, lo, y.id);
      RepKept(nodes, r, y.right, y.id, t.id);
      RepKept(nodes, r, t.right, t.id, hi);
    } else {
      RepKept(nodes, r, y.right, y.id, hi);
      RepKept(nodes, r, y.left, t.id, y.id);
      RepKept(nodes, r, t.left, lo, t.id);
    }
  }

  lemma SwungRep(nodes: seq<Node>, r: seq<Node>, t: Tree, s: Side, lo: int, hi: int)
    requires Rep(nodes, t, lo, hi) && Proper(t) && t.Branch? && Child(t, s).Branch? && Turns(nodes, r, t, s)
    ensures Rep(r, Rotated(t, s), lo, hi)
  {
    SwungSubtrees(nodes, r, t, s, lo, hi);
    var y := Child(t, s);
    if s == Left {
      assert Is(nodes, y.id, y.red, Left, RootOf(y.left), RootOf(y.right), lo, t.id);
      assert Is(r, t.id, t.red, Left, RootOf(y.right), RootOf(t.right), y.id, hi);
      assert Is(r, y.id, y.red, Left, RootOf(y.left), t.id, lo, hi);
    } else {
      assert Is(nodes, y.id, y.red, Left, RootOf(y.left), RootOf(y.right), t.id, hi);
      assert Is(r, t.id, t.red, Left, RootOf(t.left), RootOf(y.left), lo, y.id);
      assert Is(r, y.id, y.red, Left, t.id, RootOf(y.right), lo, hi);
    }
  }

  // ---- a new node ----

  /** The node as it is allocated. */
  function Blank(key: int, val: int): Node { Node(Link(NULL, false, false), Link(NULL, false, false), key, val) }

  /** The link updates that hang a new node below p on side s. */
  function Planted(nodes: seq<Node>, p: int, s: Side, key: int, val: int): (r: seq<Node>)
    requires 0 <= p < |nodes|
    ensures |r| == |nodes| + 1
  {
    var n := |nodes|;
    var n0 := nodes + [Blank(key, val)];
    var n1 := SetTrail(SetTrail(n0, n, Left, true), n, Right, true);
    var n2 := SetLink(n1, n, LinkOf(n1[p], s).to, s);
    var n3 := if nodes[HOLDER].l.to != NULL then SetLink(SetTrail(n2, p, s, false), n, p, Other(s))
      else SetLink(n2, n, NULL, Right);
    SetColour(SetLink(n3, p, n, s), n, true)
  }

  lemma PlantedAt(nodes: seq<Node>, p: int, s: Side, key: int, val: int)
    requires 0 <= p < |nodes| && |nodes| > 0
    requires (nodes[HOLDER].l.to == NULL ==> p == HOLDER && s == Left && !nodes[HOLDER].l.trail)
    ensures var r, n := Planted(nodes, p, s, key, val), |nodes|;
            && (forall i {:trigger r[i]} :: 0 <= i < n && i != p ==> r[i] == nodes[i])
            && r[n].key == key && r[n].val == val && r[n].l.low && r[n].l.trail && r[n].r.trail
            && LinkOf(r[n], s).to == LinkOf(nodes[p], s).to
            && LinkOf(r[n], Other(s)).to == (if nodes[HOLDER].l.to == NULL then NULL else p)
            && r[p].l.low == nodes[p].l.low && LinkOf(r[p], s).to == n && !LinkOf(r[p], s).trail
            && LinkOf(r[p], Other(s)) == LinkOf(nodes[p], Other(s))
            && r[p].key == nodes[p].key && r[p].val == nodes[p].val
  {}

  lemma {:induction false} HolderFull(nodes: seq<Node>, path: Path, hole: int)
    requires PathRep(nodes, path, hole)
    ensures |nodes| > 0 && !nodes[HOLDER].l.trail && !nodes[HOLDER].l.low
    ensures path.In? ==> nodes[HOLDER].l.to != NULL
    ensures path.Top? ==> nodes[HOLDER].l.to == hole
  {
    if path.In? { HolderFull(nodes, path.up, path.id); }
  }

  /** The new node is a red leaf of the tree, threaded to its neighbours. */
  lemma PlantedWhole(nodes: seq<Node>, path: Path, key: int, val: int)
    requires Whole(nodes, path, Leaf)
    ensures 0 <= Parent(path) < |nodes|
    ensures Whole(Planted(nodes, Parent(path), Hand(path), key, val), path, Branch(true, Leaf, |nodes|, Leaf))
  {
    HolderFull(nodes, path, NULL);
    PathPositive(nodes, path, NULL);
    var p, s, n := Parent(path), Hand(path), |nodes|;
    if path.In? { assert path.id in PathIds(path); }
    PlantedAt(nodes, p, s, key, val);
    var r := Planted(nodes, p, s, key, val);
    forall x | x in PathIds(path) && x != p ensures Same(nodes, r, x) {}
    PathLed(nodes, r, path, NULL, n);
  }

  // ---- the same, for callers that only pass the representation on ----

  /** `Whole`, unfolded only where `HoldsIs` calls for it. */
  ghost predicate Holds(nodes: seq<Node>, path: Path, f: Tree) {
    forall u {:trigger Look(u)} :: Look(u) ==> Whole(nodes, path, f)
  }

  lemma HoldsIs(nodes: seq<Node>, path: Path, f: Tree)
    ensures Holds(nodes, path, f) <==> Whole(nodes, path, f)
  {
    assert Look(0);
  }

  lemma Descend(nodes: seq<Node>, path: Path, t: Tree, s: Side)
    requires Holds(nodes, path, t) && t.Branch?
    ensures Holds(nodes, Down(path, t, s), Child(t, s))
  {
    HoldsIs(nodes, path, t);
    GoDown(nodes, path, t, s);
    HoldsIs(nodes, Down(path, t, s), Child(t, s));
  }

  lemma Ascend(nodes: seq<Node>, path: Path, f: Tree)
    requires Holds(nodes, path, f) && path.In?
    ensures Holds(nodes, path.up, Make(path.side, path.red, f, path.id, path.sib))
  {
    HoldsIs(nodes, path, f);
    GoUp(nodes, path, f);
    HoldsIs(nodes, path.up, Make(path.side, path.red, f, path.id, path.sib));
  }

  lemma AscendAll(nodes: seq<Node>, path: Path, f: Tree)
    requires Holds(nodes, path, f)
    ensures Holds(nodes, Top, Plug(path, f))
  {
    HoldsIs(nodes, path, f);
    GoTop(nodes, path, f);
    HoldsIs(nodes, Top, Plug(path, f));
  }

  lemma PaintHolds(nodes: seq<Node>, path: Path, f: Tree, red: bool)
    requires Holds(nodes, path, f) && f.Branch?
    ensures 0 < f.id < |nodes| && Holds(SetColour(nodes, f.id, red), path, Coloured(f, red))
  {
    HoldsIs(nodes, path, f);
    ColourWhole(nodes, path, f, red);
    HoldsIs(SetColour(nodes, f.id, red), path, Coloured(f, red));
  }

  lemma SwungHolds(nodes: seq<Node>, path: Path, t: Tree, s: Side)
    requires Holds(nodes, path, t) && t.Branch? && Child(t, s).Branch?
    ensures 0 <= Parent(path) < |nodes| && 0 <= t.id < |nodes| && LinkOf(nodes[t.id], s).to == Child(t, s).id
    ensures 0 <= Child(t, s).id < |nodes|
    ensures Holds(Swung(nodes, Parent(path), Hand(path), t.id, s), path, Rotated(t, s))
  {
    HoldsIs(nodes, path, t);
    SwungWhole(nodes, path, t, s);
    HoldsIs(Swung(nodes, Parent(path), Hand(path), t.id, s), path, Rotated(t, s));
  }

  lemma PlantedHolds(nodes: seq<Node>, path: Path, key: int, val: int)
    requires Holds(nodes, path, Leaf)
    ensures 0 <= Parent(path) < |nodes|
    ensures Holds(Planted(nodes, Parent(path), Hand(path), key, val), path, Branch(true, Leaf, |nodes|, Leaf))
  {
    HoldsIs(nodes, path, Leaf);
    PlantedWhole(nodes, path, key, val);
    HoldsIs(Planted(nodes, Parent(path), Hand(path), key, val), path, Branch(true, Leaf, |nodes|, Leaf));
  }

  /** What the links of a node say about its children. */
  ghost predicate Reads(nodes: seq<Node>, t: Tree, s: Side)
    requires t.Branch?
  {
    && 0 < t.id < |nodes| && nodes[t.id].l.low == t.red
    && (LinkOf(nodes[t.id], s).trail <==> Child(t, s).Leaf?)
    && (Child(t, s).Branch? ==>
          var c := Child(t, s);
          0 < c.id < |nodes| && LinkOf(nodes[t.id], s).to == c.id && nodes[c.id].l.low == c.red)
  }

  lemma ReadsAt(nodes: seq<Node>, path: Path, t: Tree, s: Side)
    requires Holds(nodes, path, t) && t.Branch?
    ensures Reads(nodes, t, s)
  {
    HoldsIs(nodes, path, t);
    assert Rep(nodes, Child(t, s), if s == Left then Lo(path) else t.id, if s == Left then t.id else Hi(path));
  }

  lemma RootAt(nodes: seq<Node>, t: Tree)
    requires Holds(nodes, Top, t)
    ensures |nodes| > 0 && nodes[HOLDER].l.to == RootOf(t)
    ensures t.Branch? ==> 0 < t.id < |nodes|
  {
    HoldsIs(nodes, Top, t);
  }
}
