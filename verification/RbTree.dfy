/**
 Red-black trees as values: what the insertion of src/trbtree.hh computes, seen through the
 path from the root to the node it works on.  Nodes are named by numbers.
 */
module RbTree {

  datatype Side = Left | Right

  function Other(s: Side): Side { if s == Left then Right else Left }

  datatype Tree = Leaf | Branch(red: bool, left: Tree, id: int, right: Tree)

  /** The rest of a tree around one subtree, innermost node first: the subtree hangs off node id
      on the given side, and sib is the other child of id. */
  datatype Path = Top | In(side: Side, red: bool, id: int, sib: Tree, up: Path)

  /** Node id with child f on side s and child sib on the other. */
  function Make(s: Side, red: bool, f: Tree, id: int, sib: Tree): Tree {
    if s == Left then Branch(red, f, id, sib) else Branch(red, sib, id, f)
  }

  function Child(t: Tree, s: Side): Tree
    requires t.Branch?
  {
    if s == Left then t.left else t.right
  }

  function Plug(path: Path, f: Tree): Tree {
    match path
    case Top => f
    case In(s, red, id, sib, up) => Plug(up, Make(s, red, f, id, sib))
  }

  // ---- order ----

  function Order(t: Tree): seq<int> {
    match t
    case Leaf => []
    case Branch(_, l, id, r) => Order(l) + [id] + Order(r)
  }

  function Before(path: Path): seq<int> {
    match path
    case Top => []
    case In(s, _, id, sib, up) => if s == Left then Before(up) else Before(up) + Order(sib) + [id]
  }

  function After(path: Path): seq<int> {
    match path
    case Top => []
    case In(s, _, id, sib, up) => if s == Left then [id] + Order(sib) + After(up) else After(up)
  }

  /** The nodes of the whole tree, from any place in it. */
  function Around(path: Path, f: Tree): seq<int> { Before(path) + Order(f) + After(path) }

  lemma AroundUp(path: Path, f: Tree)
    requires path.In?
    ensures Around(path, f) == Around(path.up, Make(path.side, path.red, f, path.id, path.sib))
  {
    Regroup(Before(path.up), Order(f), [path.id], Order(path.sib), After(path.up));
    Regroup(Before(path.up), Order(path.sib), [path.id], Order(f), After(path.up));
  }

  lemma Regroup(b: seq<int>, l: seq<int>, x: seq<int>, r: seq<int>, a: seq<int>)
    ensures b + l + (x + r + a) == b + (l + x + r) + a
    ensures (b + l + x) + r + a == b + (l + x + r) + a
  {}

  lemma {:induction false} PlugOrder(path: Path, f: Tree)
    ensures Order(Plug(path, f)) == Around(path, f)
  {
    match path
    case Top =>
    case In(s, red, id, sib, up) =>
      PlugOrder(up, Make(s, red, f, id, sib));
      AroundUp(path, f);
  }

  // ---- the fix-up ----

  predicate Red(t: Tree) { t.Branch? && t.red }

  function Coloured(t: Tree, red: bool): Tree {
    match t
    case Leaf => Leaf
    case Branch(_, l, id, r) => Branch(red, l, id, r)
  }

  /** One rotation: the child of x on side s comes up. */
  function Rotated(t: Tree, s: Side): Tree
    requires t.Branch? && Child(t, s).Branch?
  {
    var y := Child(t, s);
    Make(s, y.red, Child(y, s), y.id, Make(s, t.red, Child(y, Other(s)), t.id, Child(t, Other(s))))
  }

  /** The node f below p on side d1, and p below g on side d2: rotate f above p if it is an inner
      grandchild, colour g red and the new top black, and rotate that above g. */
  function Turned(d1: Side, d2: Side, f: Tree, p: int, s1: Tree, g: int, s2: Tree): (r: Tree)
    requires f.Branch?
    ensures r.Branch?
  {
    var low := Make(d1, true, f, p, s1);
    var top := if d1 == d2 then low else Rotated(low, d1);
    Rotated(Make(d2, true, Coloured(top, false), g, s2), d2)
  }

  /** The loop: f is red; it may hang below a red node. */
  function Fixed(path: Path, f: Tree): Tree
    requires f.Branch?
    decreases path
  {
    match path
    case In(d1, true, p, s1, In(d2, c2, g, s2, up)) =>
      if Red(s2) then
        Fixed(up, Make(d2, true, Make(d1, false, f, p, s1), g, Coloured(s2, false)))
      else
        Coloured(Plug(up, Turned(d1, d2, f, p, s1, g, s2)), false)
    case _ => Coloured(Plug(path, f), false)
  }

  // ---- balance ----

  /** Black nodes on the leftmost way down. */
  function Blacks(t: Tree): nat {
    match t
    case Leaf => 0
    case Branch(red, l, _, _) => Blacks(l) + if red then 0 else 1
  }

  /** No red node has a red child, and all ways down from a node meet equally many black nodes. */
  predicate Balanced(t: Tree) {
    match t
    case Leaf => true
    case Branch(red, l, _, r) =>
      && Balanced(l) && Balanced(r) && Blacks(l) == Blacks(r)
      && (red ==> !Red(l) && !Red(r))
  }

  /** A place for a balanced subtree with b black nodes on each way down: red nodes on the path
      have a black parent, and the root is black. */
  predicate Fits(path: Path, b: nat) {
    match path
    case Top => true
    case In(_, red, _, sib, up) =>
      && Balanced(sib) && Blacks(sib) == b
      && (red ==> !Red(sib) && up.In? && !up.red)
      && Fits(up, b + if red then 0 else 1)
  }

  predicate RedTop(path: Path) { path.In? && path.red }

  lemma {:induction false} PlugBalanced(path: Path, f: Tree)
    requires Balanced(f) && Fits(path, Blacks(f)) && (RedTop(path) ==> !Red(f)) && (path == Top ==> !Red(f))
    ensures Balanced(Plug(path, f)) && !Red(Plug(path, f))
  {
    match path
    case Top =>
    case In(s, red, id, sib, up) => PlugBalanced(up, Make(s, red, f, id, sib));
  }

  lemma PlugBranch(path: Path, f: Tree)
    requires f.Branch?
    ensures Plug(path, f).Branch?
  {}

  /** Blackening a red root changes nothing else. */
  lemma {:induction false} PlugThenBlack(path: Path, f: Tree)
    requires Balanced(f) && f.Branch? && Fits(path, Blacks(f)) && (RedTop(path) ==> !Red(f))
    ensures Balanced(Coloured(Plug(path, f), false)) && !Red(Coloured(Plug(path, f), false))
  {
    match path
    case Top =>
    case In(s, red, id, sib, up) => PlugThenBlack(up, Make(s, red, f, id, sib));
  }

  lemma TurnedBalanced(d1: Side, d2: Side, f: Tree, p: int, s1: Tree, g: int, s2: Tree)
    requires Balanced(f) && Red(f) && Balanced(s1) && Balanced(s2) && Blacks(f) == Blacks(s1) == Blacks(s2)
    requires !Red(s1) && !Red(s2)
    ensures var r := Turned(d1, d2, f, p, s1, g, s2); Balanced(r) && !Red(r) && Blacks(r) == Blacks(f) + 1
  {}

  /** The fix-up turns the tree with one new red node into a red-black tree. */
  lemma {:induction false} FixedBalanced(path: Path, f: Tree)
    requires Balanced(f) && Red(f) && Fits(path, Blacks(f))
    ensures Balanced(Fixed(path, f)) && !Red(Fixed(path, f))
    decreases path
  {
    match path
    case In(d1, true, p, s1, In(d2, c2, g, s2, up)) =>
      if Red(s2) {
        var f' := Make(d2, true, Make(d1, false, f, p, s1), g, Coloured(s2, false));
        FixedBalanced(up, f');
      } else {
        TurnedBalanced(d1, d2, f, p, s1, g, s2);
        PlugThenBlack(up, Turned(d1, d2, f, p, s1, g, s2));
      }
    case _ => PlugThenBlack(path, f);
  }

  lemma RotatedOrder(t: Tree, s: Side)
    requires t.Branch? && Child(t, s).Branch?
    ensures Order(Rotated(t, s)) == Order(t)
  {
    var y := Child(t, s);
    if s == Left {
      assert Order(t) == Order(y.left) + [y.id] + Order(y.right) + [t.id] + Order(t.right);
    } else {
      assert Order(t) == Order(t.left) + [t.id] + Order(y.left) + [y.id] + Order(y.right);
    }
  }

  lemma TurnedOrder(d1: Side, d2: Side, f: Tree, p: int, s1: Tree, g: int, s2: Tree)
    requires f.Branch?
    ensures Order(Turned(d1, d2, f, p, s1, g, s2)) == Order(Make(d2, true, Make(d1, true, f, p, s1), g, s2))
  {
    var low := Make(d1, true, f, p, s1);
    if d1 != d2 { RotatedOrder(low, d1); }
    var top := if d1 == d2 then low else Rotated(low, d1);
    RotatedOrder(Make(d2, true, Coloured(top, false), g, s2), d2);
  }

  /** The fix-up keeps the order of the nodes. */
  lemma {:induction false} FixedOrder(path: Path, f: Tree)
    requires f.Branch?
    ensures Order(Fixed(path, f)) == Around(path, f)
    decreases path
  {
    match path
    case In(d1, true, p, s1, In(d2, c2, g, s2, up)) =>
      AroundUp(path, f);
      AroundUp(path.up, Make(d1, true, f, p, s1));
      if Red(s2) {
        var f' := Make(d2, true, Make(d1, false, f, p, s1), g, Coloured(s2, false));
        ColouredOrder(s2, false);
        assert Order(f') == Order(Make(d2, c2, Make(d1, true, f, p, s1), g, s2));
        FixedOrder(up, f');
      } else {
        TurnedOrder(d1, d2, f, p, s1, g, s2);
        PlugOrder(up, Turned(d1, d2, f, p, s1, g, s2));
        ColouredOrder(Plug(up, Turned(d1, d2, f, p, s1, g, s2)), false);
      }
    case _ =>
      PlugOrder(path, f);
      ColouredOrder(Plug(path, f), false);
  }

  lemma ColouredOrder(t: Tree, red: bool)
    ensures Order(Coloured(t, red)) == Order(t)
  {}

  // ---- height ----

  function Max(a: int, b: int): int { if a > b then a else b }

  function Height(t: Tree): nat {
    match t
    case Leaf => 0
    case Branch(_, l, _, r) => 1 + Max(Height(l), Height(r))
  }

  function Pow2(n: nat): (r: nat)
    ensures r > 0
  {
    if n == 0 then 1 else 2 * Pow2(n - 1)
  }

  lemma {:induction false} TallNeedsBlacks(t: Tree)
    requires Balanced(t)
    ensures Height(t) <= 2 * Blacks(t) + if Red(t) then 1 else 0
  {
    match t
    case Leaf =>
    case Branch(_, l, _, r) =>
      TallNeedsBlacks(l);
      TallNeedsBlacks(r);
  }

  lemma {:induction false} BlacksNeedNodes(t: Tree)
    requires Balanced(t)
    ensures |Order(t)| + 1 >= Pow2(Blacks(t))
  {
    match t
    case Leaf =>
    case Branch(_, l, _, r) =>
      BlacksNeedNodes(l);
      BlacksNeedNodes(r);
  }

  lemma {:induction false} Pow2Grows(a: nat, b: nat)
    requires a <= b
    ensures Pow2(a) <= Pow2(b)
  {
    if a < b { Pow2Grows(a, b - 1); }
  }

  /** With n nodes a red-black tree is at most 2 log2(n + 1) high. */
  lemma HeightBound(t: Tree, m: nat)
    requires Balanced(t) && !Red(t) && |Order(t)| + 1 < Pow2(m + 1)
    ensures Height(t) <= 2 * m
  {
    TallNeedsBlacks(t);
    BlacksNeedNodes(t);
    if Blacks(t) > m { Pow2Grows(m + 1, Blacks(t)); }
  }

  function Depth(path: Path): nat {
    match path
    case Top => 0
    case In(_, _, _, _, up) => 1 + Depth(up)
  }

  lemma {:induction false} DepthBound(path: Path, f: Tree)
    ensures Depth(path) + Height(f) <= Height(Plug(path, f))
  {
    match path
    case Top =>
    case In(s, red, id, sib, up) => DepthBound(up, Make(s, red, f, id, sib));
  }

  // ---- going down ----

  /** Where a balanced tree with a black root is entered, subtrees fit. */
  lemma {:induction false} PlugFits(path: Path, f: Tree)
    requires Balanced(Plug(path, f)) && !Red(Plug(path, f))
    ensures Balanced(f) && Fits(path, Blacks(f)) && (RedTop(path) ==> !Red(f)) && (path == Top ==> !Red(f))
  {
    match path
    case Top =>
    case In(s, red, id, sib, up) => PlugFits(up, Make(s, red, f, id, sib));
  }
}
