/**
 * The search tree of a new address space.  dup_mmap never searches it: it links every copy
 * at the right slot of the copy before, and the rebalancing in between is any sequence of
 * rotations.
 */
module AreaTree {
  import opened Lists

  datatype Tree<T> = Leaf | Node(left: Tree<T>, item: T, right: Tree<T>)

  function InOrder<T>(t: Tree<T>): seq<T> {
    match t
    case Leaf => []
    case Node(l, x, r) => InOrder(l) + [x] + InOrder(r)
  }

  /** Link `x` at the right slot of the node holding `p`, whatever is there. */
  function LinkRight<T(==)>(t: Tree<T>, p: T, x: T): Tree<T> {
    match t
    case Leaf => Leaf
    case Node(l, y, r) =>
      if y == p then Node(l, y, Node(Leaf, x, Leaf)) else Node(LinkRight(l, p, x), y, LinkRight(r, p, x))
  }

  /** Link `x` behind `last`, or as the root when nothing was linked yet. */
  function LinkBehind<T(==)>(t: Tree<T>, last: Option<T>, x: T): Tree<T> {
    if last.None? then Node(Leaf, x, Leaf) else LinkRight(t, last.value, x)
  }

  /** A rotation at the node that `path` leads to (true goes left); none if it does not exist. */
  datatype Rotation = Rotation(path: seq<bool>, toLeft: bool)

  function Rotate<T>(t: Tree<T>, path: seq<bool>, toLeft: bool): Tree<T>
    decreases |path|
  {
    if t.Leaf? then t
    else if path != [] then
      if path[0] then t.(left := Rotate(t.left, path[1..], toLeft)) else t.(right := Rotate(t.right, path[1..], toLeft))
    else if toLeft && t.right.Node? then
      Node(Node(t.left, t.item, t.right.left), t.right.item, t.right.right)
    else if !toLeft && t.left.Node? then
      Node(t.left.left, t.left.item, Node(t.left.right, t.item, t.right))
    else t
  }

  function Rebalance<T>(t: Tree<T>, rs: seq<Rotation>): Tree<T>
    decreases |rs|
  {
    if rs == [] then t else Rebalance(Rotate(t, rs[0].path, rs[0].toLeft), rs[1..])
  }

  lemma {:induction false} RotateKeepsOrder<T>(t: Tree<T>, path: seq<bool>, toLeft: bool)
    ensures InOrder(Rotate(t, path, toLeft)) == InOrder(t)
    decreases |path|
  {
    if t.Node? && path != [] {
      if path[0] { RotateKeepsOrder(t.left, path[1..], toLeft); } else { RotateKeepsOrder(t.right, path[1..], toLeft); }
    }
  }

  lemma {:induction false} RebalanceKeepsOrder<T>(t: Tree<T>, rs: seq<Rotation>)
    ensures InOrder(Rebalance(t, rs)) == InOrder(t)
    decreases |rs|
  {
    if rs != [] {
      RotateKeepsOrder(t, rs[0].path, rs[0].toLeft);
      RebalanceKeepsOrder(Rotate(t, rs[0].path, rs[0].toLeft), rs[1..]);
    }
  }

  lemma {:induction false} LinkElsewhere<T>(t: Tree<T>, p: T, x: T)
    requires p !in InOrder(t)
    ensures LinkRight(t, p, x) == t
  {
    if t.Node? {
      LinkElsewhere(t.left, p, x);
      LinkElsewhere(t.right, p, x);
    }
  }

  /**
   * In whatever shape rebalancing left the tree, the right slot of its last item is free, so
   * linking there loses nothing and puts the new item last.
   */
  lemma {:induction false} LinkBehindLast<T>(t: Tree<T>, p: T, x: T)
    requires NoDup(InOrder(t)) && InOrder(t) != [] && InOrder(t)[|InOrder(t)| - 1] == p
    ensures InOrder(LinkRight(t, p, x)) == InOrder(t) + [x]
  {
    var l, y, r := t.left, t.item, t.right;
    var n := |InOrder(l)|;
    assert InOrder(t)[n] == y && InOrder(t)[..n] == InOrder(l) && InOrder(t)[n + 1..] == InOrder(r);
    if InOrder(r) == [] {
      EmptyTree(r);
    } else {
      assert p == InOrder(r)[|InOrder(r)| - 1];
      assert NoDup(InOrder(r)) && p !in InOrder(l) && y != p;
      LinkElsewhere(l, p, x);
      LinkBehindLast(r, p, x);
    }
  }

  lemma EmptyTree<T>(t: Tree<T>)
    requires InOrder(t) == []
    ensures t.Leaf?
  {
  }
}
