/**
 * Preorder traversal of a tree of groups, once by recursion and once as "the rest of the
 * recursion" seen from a position inside the tree, which is all a stackless walk has.
 */
module GroupTree {
  import opened Lists

  /**
   * `kids[l]` lists the nodes below group `l`; `up[c]` and `pos[c]` say where in `kids` the
   * node `c` stands.
   */
  datatype Shape = Shape(kids: seq<seq<nat>>, up: seq<nat>, pos: seq<nat>)

  ghost predicate Ascends(kids: seq<seq<nat>>) {
    forall l, i :: 0 <= l < |kids| && 0 <= i < |kids[l]| ==> l < kids[l][i] < |kids|
  }

  ghost predicate Valid(g: Shape) {
    && |g.up| == |g.pos| == |g.kids| && Ascends(g.kids)
    && forall l, i :: 0 <= l < |g.kids| && 0 <= i < |g.kids[l]| ==>
         g.up[g.kids[l][i]] == l && g.pos[g.kids[l][i]] == i
  }

  ghost predicate IsKid(g: Shape, c: nat)
    requires Valid(g)
  {
    c < |g.kids| && g.up[c] < c && g.pos[c] < |g.kids[g.up[c]]| && g.kids[g.up[c]][g.pos[c]] == c
  }

  datatype Walk<S> = Walk(stopped: bool, data: S, calls: seq<nat>)

  /**
   * Visit the nodes of group `l` from the `i`-th on.  A positive answer descends into that
   * node's own group before the next sibling, zero skips it, a negative one ends everything.
   */
  function Preorder<S>(kids: seq<seq<nat>>, l: nat, i: nat, visitor: (nat, S) -> (int, S), data: S): Walk<S>
    requires Ascends(kids) && l < |kids| && i <= |kids[l]|
    decreases |kids| - l, |kids[l]| - i
  {
    if i == |kids[l]| then Walk(false, data, [])
    else
      var c := kids[l][i];
      var (res, data1) := visitor(c, data);
      if res < 0 then Walk(true, data1, [c])
      else
        var sub := if res > 0 then Preorder(kids, c, 0, visitor, data1) else Walk(false, data1, []);
        if sub.stopped then Walk(true, sub.data, [c] + sub.calls)
        else
          var rest := Preorder(kids, l, i + 1, visitor, sub.data);
          Walk(rest.stopped, rest.data, [c] + sub.calls + rest.calls)
  }

  /** `l` is `top` or lies below it. */
  ghost predicate Under(g: Shape, top: nat, l: nat)
    requires Valid(g)
    decreases l
  {
    l < |g.kids| && (l == top || (IsKid(g, l) && Under(g, top, g.up[l])))
  }

  /** The rest of the recursion started at `top`, from index `i` of group `l`. */
  function Resume<S>(g: Shape, top: nat, l: nat, i: nat, visitor: (nat, S) -> (int, S), data: S): Walk<S>
    requires Valid(g) && Under(g, top, l) && i <= |g.kids[l]|
    decreases l
  {
    var here := Preorder(g.kids, l, i, visitor, data);
    if here.stopped || l == top then here
    else
      var above := Resume(g, top, g.up[l], g.pos[l] + 1, visitor, here.data);
      Walk(above.stopped, above.data, here.calls + above.calls)
  }

  lemma ResumeSkips<S>(g: Shape, top: nat, l: nat, i: nat, visitor: (nat, S) -> (int, S), data: S)
    requires Valid(g) && Under(g, top, l) && i < |g.kids[l]|
    requires visitor(g.kids[l][i], data).0 == 0
    ensures var r := Resume(g, top, l, i + 1, visitor, visitor(g.kids[l][i], data).1);
            Resume(g, top, l, i, visitor, data) == Walk(r.stopped, r.data, [g.kids[l][i]] + r.calls)
  {
    var data1 := visitor(g.kids[l][i], data).1;
    var rest := Preorder(g.kids, l, i + 1, visitor, data1);
    var here := Preorder(g.kids, l, i, visitor, data);
    assert here == Walk(rest.stopped, rest.data, [g.kids[l][i]] + rest.calls);
  }

  lemma ResumeDescends<S>(g: Shape, top: nat, l: nat, i: nat, visitor: (nat, S) -> (int, S), data: S)
    requires Valid(g) && Under(g, top, l) && i < |g.kids[l]| && Under(g, top, g.kids[l][i]) && g.kids[l][i] != top
    requires visitor(g.kids[l][i], data).0 > 0
    ensures var r := Resume(g, top, g.kids[l][i], 0, visitor, visitor(g.kids[l][i], data).1);
            Resume(g, top, l, i, visitor, data) == Walk(r.stopped, r.data, [g.kids[l][i]] + r.calls)
  {
    var c := g.kids[l][i];
    var data1 := visitor(c, data).1;
    var sub := Preorder(g.kids, c, 0, visitor, data1);
    if !sub.stopped {
      var rest := Preorder(g.kids, l, i + 1, visitor, sub.data);
      var here := Preorder(g.kids, l, i, visitor, data);
      assert here == Walk(rest.stopped, rest.data, [c] + sub.calls + rest.calls);
      assert [c] + sub.calls + rest.calls == [c] + (sub.calls + rest.calls);
      if !rest.stopped && l != top {
        var above := Resume(g, top, g.up[l], g.pos[l] + 1, visitor, rest.data);
        assert [c] + sub.calls + rest.calls + above.calls == [c] + (sub.calls + (rest.calls + above.calls));
      }
    }
  }

  lemma ResumeGoesUp<S>(g: Shape, top: nat, l: nat, visitor: (nat, S) -> (int, S), data: S)
    requires Valid(g) && Under(g, top, l) && l != top
    ensures Resume(g, top, l, |g.kids[l]|, visitor, data) == Resume(g, top, g.up[l], g.pos[l] + 1, visitor, data)
  {
    var above := Resume(g, top, g.up[l], g.pos[l] + 1, visitor, data);
    assert [] + above.calls == above.calls;
  }

  lemma UnderKid(g: Shape, top: nat, l: nat, i: nat)
    requires Valid(g) && Under(g, top, l) && i < |g.kids[l]|
    ensures Under(g, top, g.kids[l][i]) && IsKid(g, g.kids[l][i]) && g.kids[l][i] != top
  {
    UnderAtMost(g, top, l);
  }

  lemma {:induction false} UnderAtMost(g: Shape, top: nat, l: nat)
    requires Valid(g) && Under(g, top, l)
    ensures top <= l
    decreases l
  {
    if l != top { UnderAtMost(g, top, g.up[l]); }
  }

  // ----- A bound on every walk -----

  /** Steps a walk takes that always descends. */
  ghost function Size(kids: seq<seq<nat>>, l: nat, i: nat): nat
    requires Ascends(kids) && l < |kids| && i <= |kids[l]|
    decreases |kids| - l, |kids[l]| - i
  {
    if i == |kids[l]| then 0 else 2 + Size(kids, kids[l][i], 0) + Size(kids, l, i + 1)
  }

  ghost function SizeToTop(g: Shape, top: nat, l: nat, i: nat): nat
    requires Valid(g) && Under(g, top, l) && i <= |g.kids[l]|
    decreases l
  {
    Size(g.kids, l, i) + if l == top then 0 else 1 + SizeToTop(g, top, g.up[l], g.pos[l] + 1)
  }

  lemma SizeSkips(g: Shape, top: nat, l: nat, i: nat)
    requires Valid(g) && Under(g, top, l) && i < |g.kids[l]|
    ensures SizeToTop(g, top, l, i + 1) < SizeToTop(g, top, l, i)
  {
  }

  lemma SizeDescends(g: Shape, top: nat, l: nat, i: nat)
    requires Valid(g) && Under(g, top, l) && i < |g.kids[l]|
    requires Under(g, top, g.kids[l][i]) && g.kids[l][i] != top
    ensures SizeToTop(g, top, g.kids[l][i], 0) < SizeToTop(g, top, l, i)
  {
    assert SizeToTop(g, top, l, i + 1) + 2 + Size(g.kids, g.kids[l][i], 0) == SizeToTop(g, top, l, i);
  }

  lemma SizeGoesUp(g: Shape, top: nat, l: nat, i: nat)
    requires Valid(g) && Under(g, top, l) && i <= |g.kids[l]| && l != top
    ensures Under(g, top, g.up[l]) && SizeToTop(g, top, g.up[l], g.pos[l] + 1) < SizeToTop(g, top, l, i)
  {
  }

  // ----- What a preorder visits -----

  /** Everything visited lies below one of the nodes the visit started from. */
  lemma {:induction false} CallsAreUnder<S>(g: Shape, l: nat, i: nat, visitor: (nat, S) -> (int, S), data: S)
    requires Valid(g) && l < |g.kids| && i <= |g.kids[l]|
    ensures forall x :: x in Preorder(g.kids, l, i, visitor, data).calls ==>
              exists j :: i <= j < |g.kids[l]| && Under(g, g.kids[l][j], x)
    decreases |g.kids| - l, |g.kids[l]| - i
  {
    if i < |g.kids[l]| {
      var c := g.kids[l][i];
      var (res, data1) := visitor(c, data);
      assert Under(g, c, c);
      if res >= 0 {
        var sub := if res > 0 then Preorder(g.kids, c, 0, visitor, data1) else Walk(false, data1, []);
        if res > 0 {
          CallsAreUnder(g, c, 0, visitor, data1);
          forall x | x in sub.calls ensures Under(g, c, x) {
            var j :| 0 <= j < |g.kids[c]| && Under(g, g.kids[c][j], x);
            UnderTrans(g, c, c, j, x);
          }
        }
        if !sub.stopped { CallsAreUnder(g, l, i + 1, visitor, sub.data); }
      }
    }
  }

  lemma {:induction false} UnderTrans(g: Shape, a: nat, l: nat, j: nat, x: nat)
    requires Valid(g) && Under(g, a, l) && j < |g.kids[l]| && Under(g, g.kids[l][j], x)
    ensures Under(g, a, x)
    decreases x
  {
    if x == g.kids[l][j] { UnderKid(g, a, l, j); } else { UnderTrans(g, a, l, j, g.up[x]); }
  }

  /** The subtrees of two nodes of one group have nothing in common. */
  lemma {:induction false} SubtreesDisjoint(g: Shape, l: nat, i: nat, j: nat, x: nat)
    requires Valid(g) && l < |g.kids| && i < |g.kids[l]| && j < |g.kids[l]|
    requires Under(g, g.kids[l][i], x) && Under(g, g.kids[l][j], x)
    ensures i == j
    decreases x
  {
    var a, b := g.kids[l][i], g.kids[l][j];
    if x == a {
      if x != b { UnderAtMost(g, b, g.up[x]); }
    } else if x == b {
      UnderAtMost(g, a, g.up[x]);
    } else {
      SubtreesDisjoint(g, l, i, j, g.up[x]);
    }
  }

  /** No visitor, however stateful, is ever called twice on one node. */
  lemma {:induction false} CalledOnce<S>(g: Shape, l: nat, i: nat, visitor: (nat, S) -> (int, S), data: S)
    requires Valid(g) && l < |g.kids| && i <= |g.kids[l]|
    ensures NoDup(Preorder(g.kids, l, i, visitor, data).calls)
    decreases |g.kids| - l, |g.kids[l]| - i
  {
    if i < |g.kids[l]| {
      var c := g.kids[l][i];
      var (res, data1) := visitor(c, data);
      if res >= 0 {
        var sub := if res > 0 then Preorder(g.kids, c, 0, visitor, data1) else Walk(false, data1, []);
        if res > 0 {
          CalledOnce(g, c, 0, visitor, data1);
          CallsAreUnder(g, c, 0, visitor, data1);
          forall x | x in sub.calls ensures x != c && Under(g, c, x) {
            var j :| 0 <= j < |g.kids[c]| && Under(g, g.kids[c][j], x);
            UnderAtMost(g, g.kids[c][j], x);
            UnderTrans(g, c, c, j, x);
          }
        }
        NoDupConcat([c], sub.calls);
        if !sub.stopped {
          var rest := Preorder(g.kids, l, i + 1, visitor, sub.data);
          CalledOnce(g, l, i + 1, visitor, sub.data);
          CallsAreUnder(g, l, i + 1, visitor, sub.data);
          forall x | x in rest.calls ensures x != c && x !in sub.calls {
            var j :| i + 1 <= j < |g.kids[l]| && Under(g, g.kids[l][j], x);
            if x == c || x in sub.calls { SubtreesDisjoint(g, l, i, j, x); }
          }
          NoDupConcat([c] + sub.calls, rest.calls);
        }
      }
    }
  }

  /** Below `top`, and every group passed on the way down was answered positively. */
  ghost predicate Reached(g: Shape, top: nat, answer: nat -> int, x: nat)
    requires Valid(g)
    decreases x
  {
    IsKid(g, x) && (g.up[x] == top || (answer(g.up[x]) > 0 && Reached(g, top, answer, g.up[x])))
  }

  /** The visitor's answer depends on the node alone and never stops the walk. */
  ghost predicate AnswersBy<S(!new)>(visitor: (nat, S) -> (int, S), answer: nat -> int) {
    forall t, s :: visitor(t, s).0 == answer(t) && answer(t) >= 0
  }

  /** With a visitor that never stops the walk, exactly the reached nodes are visited. */
  lemma {:induction false} CallsAreTheReached<S(!new)>(
      g: Shape, l: nat, i: nat, answer: nat -> int, visitor: (nat, S) -> (int, S), data: S, x: nat)
    requires Valid(g) && l < |g.kids| && i <= |g.kids[l]|
    requires AnswersBy(visitor, answer)
    ensures var w := Preorder(g.kids, l, i, visitor, data);
            && !w.stopped
            && (x in w.calls <==>
                  Reached(g, l, answer, x) && exists j :: i <= j < |g.kids[l]| && Under(g, g.kids[l][j], x))
    decreases |g.kids| - l, |g.kids[l]| - i
  {
    if i < |g.kids[l]| {
      var c := g.kids[l][i];
      var (res, data1) := visitor(c, data);
      var sub := if res > 0 then Preorder(g.kids, c, 0, visitor, data1) else Walk(false, data1, []);
      if res > 0 { CallsAreTheReached(g, c, 0, answer, visitor, data1, x); }
      CallsAreTheReached(g, l, i + 1, answer, visitor, sub.data, x);
      ReachedVia(g, l, i, answer, x);
    }
  }

  /** Reached through the `i`-th node of `l`: it is that node, or reached from it after a positive answer. */
  lemma {:induction false} ReachedVia(g: Shape, l: nat, i: nat, answer: nat -> int, x: nat)
    requires Valid(g) && l < |g.kids| && i < |g.kids[l]|
    ensures var c := g.kids[l][i];
            Reached(g, l, answer, x) && Under(g, c, x) <==>
            || x == c
            || (answer(c) > 0 && Reached(g, c, answer, x)
                && exists j :: 0 <= j < |g.kids[c]| && Under(g, g.kids[c][j], x))
    decreases x
  {
    var c := g.kids[l][i];
    if IsKid(g, x) && x != c {
      var u := g.up[x];
      if u == c {
        assert Under(g, g.kids[c][g.pos[x]], x);
        assert Reached(g, l, answer, c);
      } else {
        ReachedVia(g, l, i, answer, u);
        if u == l { if Under(g, c, x) { UnderAtMost(g, c, u); } }
        if exists j :: 0 <= j < |g.kids[c]| && Under(g, g.kids[c][j], x) {
          var j :| 0 <= j < |g.kids[c]| && Under(g, g.kids[c][j], x);
          if x == g.kids[c][j] { assert false; }
          assert Under(g, g.kids[c][j], u);
        }
        if exists j :: 0 <= j < |g.kids[c]| && Under(g, g.kids[c][j], u) {
          var j :| 0 <= j < |g.kids[c]| && Under(g, g.kids[c][j], u);
          assert Under(g, g.kids[c][j], x);
        }
      }
    }
  }

  lemma {:induction false} ReachedIsUnder(g: Shape, l: nat, answer: nat -> int, x: nat)
    requires Valid(g) && l < |g.kids| && Reached(g, l, answer, x)
    ensures exists j :: 0 <= j < |g.kids[l]| && Under(g, g.kids[l][j], x)
    decreases x
  {
    if g.up[x] == l {
      assert Under(g, g.kids[l][g.pos[x]], x);
    } else {
      ReachedIsUnder(g, l, answer, g.up[x]);
      var j :| 0 <= j < |g.kids[l]| && Under(g, g.kids[l][j], g.up[x]);
      assert Under(g, g.kids[l][j], x);
    }
  }

  // ----- A walk that nobody stops, as one list -----

  ghost predicate Within(ns: seq<nat>, lo: int, hi: nat) {
    forall i :: 0 <= i < |ns| ==> lo < ns[i] < hi
  }

  /** The node `n` and, if it is answered positively, all that is reached below it, in preorder. */
  function Subtree(kids: seq<seq<nat>>, n: nat, answer: nat -> int): seq<nat>
    requires Ascends(kids) && n < |kids|
    decreases |kids| - n, |kids[n]| + 1
  {
    [n] + if answer(n) > 0 then Flat(kids, n, kids[n], answer) else []
  }

  /** The subtrees of the nodes `ns`, one after the other; `lo` only serves termination. */
  function Flat(kids: seq<seq<nat>>, lo: nat, ns: seq<nat>, answer: nat -> int): seq<nat>
    requires Ascends(kids) && lo < |kids| && Within(ns, lo, |kids|)
    decreases |kids| - lo, |ns|
  {
    if ns == [] then [] else Subtree(kids, ns[0], answer) + Flat(kids, lo, ns[1..], answer)
  }

  lemma WithinParts(a: seq<nat>, b: seq<nat>, lo: int, hi: nat)
    ensures Within(a + b, lo, hi) <==> Within(a, lo, hi) && Within(b, lo, hi)
  {
    if Within(a + b, lo, hi) {
      assert forall i :: 0 <= i < |a| ==> a[i] == (a + b)[i];
      assert forall i :: 0 <= i < |b| ==> b[i] == (a + b)[|a| + i];
    }
  }

  lemma {:induction false} FlatConcat(kids: seq<seq<nat>>, lo: nat, a: seq<nat>, b: seq<nat>, answer: nat -> int)
    requires Ascends(kids) && lo < |kids| && Within(a, lo, |kids|) && Within(b, lo, |kids|)
    ensures Within(a + b, lo, |kids|)
    ensures Flat(kids, lo, a + b, answer) == Flat(kids, lo, a, answer) + Flat(kids, lo, b, answer)
    decreases |a|
  {
    hide Ascends, Subtree;
    WithinParts(a, b, lo, |kids|);
    if a == [] {
      assert a + b == b;
    } else {
      assert (a + b)[1..] == a[1..] + b && (a + b)[0] == a[0];
      FlatConcat(kids, lo, a[1..], b, answer);
      Regroup(Subtree(kids, a[0], answer), Flat(kids, lo, a[1..], answer), Flat(kids, lo, b, answer));
    }
  }

  lemma Regroup(x: seq<nat>, y: seq<nat>, z: seq<nat>)
    ensures x + (y + z) == x + y + z
  {
  }

  lemma {:induction false} FlatHas(kids: seq<seq<nat>>, lo: nat, ns: seq<nat>, answer: nat -> int, n: nat)
    requires Ascends(kids) && lo < |kids| && Within(ns, lo, |kids|) && n in ns
    ensures n in Flat(kids, lo, ns, answer)
    decreases |ns|
  {
    if n != ns[0] { FlatHas(kids, lo, ns[1..], answer, n); }
  }

  lemma {:induction false} FlatKnown(kids: seq<seq<nat>>, lo: nat, ns: seq<nat>, answer: nat -> int)
    requires Ascends(kids) && lo < |kids| && Within(ns, lo, |kids|)
    ensures |kids| !in Flat(kids, lo, ns, answer)
    decreases |kids| - lo, |ns|
  {
    if ns != [] {
      if answer(ns[0]) > 0 { FlatKnown(kids, ns[0], kids[ns[0]], answer); }
      FlatKnown(kids, lo, ns[1..], answer);
    }
  }

  /** The calls of a visitor that never stops the walk, whatever data it carries along. */
  lemma {:induction false} PreorderIsFlat<S(!new)>(
      kids: seq<seq<nat>>, l: nat, i: nat, answer: nat -> int, visitor: (nat, S) -> (int, S), data: S)
    requires Ascends(kids) && l < |kids| && i <= |kids[l]| && AnswersBy(visitor, answer)
    ensures var w := Preorder(kids, l, i, visitor, data);
            !w.stopped && w.calls == Flat(kids, l, kids[l][i..], answer)
    decreases |kids| - l, |kids[l]| - i
  {
    if i < |kids[l]| {
      var c := kids[l][i];
      var (res, data1) := visitor(c, data);
      if res > 0 {
        PreorderIsFlat(kids, c, 0, answer, visitor, data1);
        assert kids[c][0..] == kids[c];
      }
      var sub := if res > 0 then Preorder(kids, c, 0, visitor, data1) else Walk(false, data1, []);
      PreorderIsFlat(kids, l, i + 1, answer, visitor, sub.data);
      assert kids[l][i..][1..] == kids[l][i + 1..];
    }
  }

  // ----- One more node -----

  /** A node below nothing and with nothing below it is never met. */
  lemma {:induction false} FlatSame(was: seq<seq<nat>>, kids: seq<seq<nat>>, lo: nat, ns: seq<nat>, answer: nat -> int)
    requires Ascends(was) && Ascends(kids) && |kids| == |was| + 1 && forall m :: 0 <= m < |was| ==> kids[m] == was[m]
    requires lo < |was| && Within(ns, lo, |was|)
    ensures Flat(kids, lo, ns, answer) == Flat(was, lo, ns, answer)
    decreases |was| - lo, |ns|
  {
    if ns != [] {
      if answer(ns[0]) > 0 { FlatSame(was, kids, ns[0], was[ns[0]], answer); }
      FlatSame(was, kids, lo, ns[1..], answer);
    }
  }

  /** The second tree has one node more: it hangs between `a` and `b` below `l` and has nothing below it. */
  ghost predicate OneMore(was: seq<seq<nat>>, kids: seq<seq<nat>>, l: nat, a: seq<nat>, b: seq<nat>) {
    && Ascends(was) && Ascends(kids) && |kids| == |was| + 1 && l < |was|
    && was[l] == a + b && kids[l] == a + [|was|] + b && kids[|was|] == []
    && forall m :: 0 <= m < |was| && m != l ==> kids[m] == was[m]
  }

  lemma FlatLeaf(kids: seq<seq<nat>>, lo: nat, p: nat, answer: nat -> int)
    requires Ascends(kids) && lo < p < |kids| && kids[p] == []
    ensures Flat(kids, lo, [p], answer) == [p]
  {
    assert Flat(kids, p, kids[p], answer) == [];
    assert Flat(kids, lo, [p][1..], answer) == [];
  }

  lemma FlatSplit(was: seq<seq<nat>>, kids: seq<seq<nat>>, l: nat, a: seq<nat>, b: seq<nat>, answer: nat -> int)
    requires OneMore(was, kids, l, a, b)
    ensures Within(a, l, |was|) && Within(b, l, |was|)
    ensures Flat(kids, l, kids[l], answer) == Flat(kids, l, a, answer) + [|was|] + Flat(kids, l, b, answer)
    ensures Flat(was, l, was[l], answer) == Flat(was, l, a, answer) + Flat(was, l, b, answer)
  {
    var p := |was|;
    assert Within(was[l], l, |was|);
    WithinParts(a, b, l, |was|);
    FlatConcat(was, l, a, b, answer);
    assert Within([p], l, |kids|);
    FlatLeaf(kids, l, p, answer);
    FlatConcat(kids, l, a, [p], answer);
    FlatConcat(kids, l, a + [p], b, answer);
  }

  /** Apart from the new node the walk is the one before. */
  lemma {:induction false} FlatOneMore(
      was: seq<seq<nat>>, kids: seq<seq<nat>>, l: nat, a: seq<nat>, b: seq<nat>,
      lo: nat, ns: seq<nat>, answer: nat -> int)
    requires OneMore(was, kids, l, a, b) && lo < |was| && Within(ns, lo, |was|)
    ensures Except<nat>(Flat(kids, lo, ns, answer), |was|) == Flat(was, lo, ns, answer)
    decreases |was| - lo, |ns|
  {
    hide Except;
    if ns == [] {
      ExceptAbsent<nat>(Flat(kids, lo, ns, answer), |was|);
    } else {
      var n, p := ns[0], |was|;
      ExceptConcat<nat>(Subtree(kids, n, answer), Flat(kids, lo, ns[1..], answer), p);
      ExceptConcat<nat>([n], if answer(n) > 0 then Flat(kids, n, kids[n], answer) else [], p);
      ExceptAbsent<nat>([n], p);
      if answer(n) > 0 { BelowOneMore(was, kids, l, a, b, n, answer); } else { ExceptAbsent<nat>([], p); }
      FlatOneMore(was, kids, l, a, b, lo, ns[1..], answer);
    }
  }

  lemma {:induction false} BelowOneMore(
      was: seq<seq<nat>>, kids: seq<seq<nat>>, l: nat, a: seq<nat>, b: seq<nat>, n: nat, answer: nat -> int)
    requires OneMore(was, kids, l, a, b) && n < |was|
    ensures Except<nat>(Flat(kids, n, kids[n], answer), |was|) == Flat(was, n, was[n], answer)
    decreases |was| - n, |was[n]| + 1
  {
    hide Flat, Except;
    if n == l {
      FlatSplit(was, kids, l, a, b, answer);
      var fa, fb := Flat(kids, l, a, answer), Flat(kids, l, b, answer);
      FlatOneMore(was, kids, l, a, b, l, a, answer);
      FlatOneMore(was, kids, l, a, b, l, b, answer);
      ExceptBetween<nat>(fa, |was|, fb);
    } else {
      assert Within(was[n], n, |was|);
      FlatOneMore(was, kids, l, a, b, n, was[n], answer);
    }
  }

  /** The new node is met exactly when its group is, and then behind the nodes `a`. */
  lemma {:induction false} NewIsMet(
      was: seq<seq<nat>>, kids: seq<seq<nat>>, l: nat, a: seq<nat>, b: seq<nat>,
      lo: nat, ns: seq<nat>, answer: nat -> int)
    requires OneMore(was, kids, l, a, b) && lo < |was| && Within(ns, lo, |was|)
    ensures |was| in Flat(kids, lo, ns, answer) <==> l in Flat(kids, lo, ns, answer) && answer(l) > 0
    ensures |was| in Flat(kids, lo, ns, answer) ==>
      forall c :: c in a ==> Before<nat>(Flat(kids, lo, ns, answer), c, |was|)
    decreases |was| - lo, |ns|
  {
    hide Before;
    if ns != [] {
      var n, p := ns[0], |was|;
      var below := if answer(n) > 0 then Flat(kids, n, kids[n], answer) else [];
      var later := Flat(kids, lo, ns[1..], answer);
      if answer(n) > 0 { NewIsMetBelow(was, kids, l, a, b, n, answer); }
      NewIsMet(was, kids, l, a, b, lo, ns[1..], answer);
      assert Flat(kids, lo, ns, answer) == [n] + below + later;
      if p in below {
        forall c | c in a ensures Before<nat>([n] + below + later, c, p) { BeforeWithin<nat>([n], below, later, c, p); }
      } else if p in later {
        forall c | c in a ensures Before<nat>([n] + below + later, c, p) {
          BeforeWithin<nat>([n] + below, later, [], c, p);
          assert [n] + below + later + [] == [n] + below + later;
        }
      }
    }
  }

  lemma {:induction false} NewIsMetBelow(
      was: seq<seq<nat>>, kids: seq<seq<nat>>, l: nat, a: seq<nat>, b: seq<nat>, n: nat, answer: nat -> int)
    requires OneMore(was, kids, l, a, b) && n < |was|
    ensures var s := Flat(kids, n, kids[n], answer);
            && (|was| in s <==> n == l || (l in s && answer(l) > 0))
            && (|was| in s ==> forall c :: c in a ==> Before<nat>(s, c, |was|))
    decreases |was| - n, |was[n]| + 1
  {
    hide Flat;
    if n == l {
      FlatSplit(was, kids, l, a, b, answer);
      var p, fa, fb := |was|, Flat(kids, l, a, answer), Flat(kids, l, b, answer);
      forall c | c in a ensures Before<nat>(fa + [p] + fb, c, p) {
        FlatHas(kids, l, a, answer, c);
        var i := IndexOf(fa, c);
        assert (fa + [p] + fb)[i] == c && (fa + [p] + fb)[|fa|] == p;
      }
    } else {
      assert Within(was[n], n, |was|);
      NewIsMet(was, kids, l, a, b, n, was[n], answer);
    }
  }
}
