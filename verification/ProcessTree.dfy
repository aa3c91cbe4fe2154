/**
 * The process tree that copy_process links (parent, sibling and thread lists) and the
 * stackless walk over it.  A task_struct is identified by its creation index, which the
 * code never looks at: it only makes "created earlier" expressible in the invariant.
 */
module ProcessTree {
  import opened Lists
  import opened GroupTree

  /** `threads` is the signal_struct's thread list; only a group leader's is meaningful. */
  datatype Task = Task(realParent: nat, leader: nat, children: seq<nat>, threads: seq<nat>)
  type Forest = seq<Task>

  // ----- What the linking keeps -----

  ghost predicate LeadersOk(f: Forest) {
    forall t :: 0 <= t < |f| ==> f[t].leader <= t && f[f[t].leader].leader == f[t].leader
  }

  ghost predicate ThreadsOk(f: Forest)
    requires LeadersOk(f)
  {
    forall l :: 0 <= l < |f| && f[l].leader == l ==>
      && NoDup(f[l].threads) && |f[l].threads| > 0 && f[l].threads[0] == l
      && forall t: nat {:trigger t in f[l].threads} :: t in f[l].threads <==> (t < |f| && f[t].leader == l)
  }

  ghost predicate ChildrenOk(f: Forest) {
    && (forall t :: 0 < t < |f| ==> f[t].realParent < t)
    && forall p :: 0 <= p < |f| ==>
         && NoDup(f[p].children)
         && forall c: nat {:trigger c in f[p].children} ::
              c in f[p].children <==> (0 < c < |f| && f[c].leader == c && f[c].realParent == p)
  }

  ghost predicate WellFormed(f: Forest) {
    |f| > 0 && f[0].realParent == 0 && LeadersOk(f) && ThreadsOk(f) && ChildrenOk(f)
  }

  /** Lines 2289-2295, 2349-2360, 2413 and 2424-2427: how a new task is hung into the lists. */
  function Linked(f: Forest, current: nat, cloneParent: bool, cloneThread: bool): (g: Forest)
    requires WellFormed(f) && current < |f|
    ensures |g| == |f| + 1
  {
    var p := |f|;
    var parent := if cloneParent || cloneThread then f[current].realParent else current;
    if cloneThread then
      var l := f[current].leader;
      f[l := f[l].(threads := f[l].threads + [p])] + [Task(parent, l, [], [])]
    else
      f[parent := f[parent].(children := f[parent].children + [p])] + [Task(parent, p, [], [p])]
  }

  lemma ThreadLinkedThreads(f: Forest, current: nat, cloneParent: bool)
    requires WellFormed(f) && current < |f|
    ensures var g := Linked(f, current, cloneParent, true); LeadersOk(g) && ThreadsOk(g)
  {
    var g := Linked(f, current, cloneParent, true);
    var l := f[current].leader;
    assert forall t :: 0 <= t < |f| ==> g[t].leader == f[t].leader;
    assert LeadersOk(g);
    forall m | 0 <= m < |g| && g[m].leader == m
      ensures NoDup(g[m].threads) && |g[m].threads| > 0 && g[m].threads[0] == m
      ensures forall t: nat {:trigger t in g[m].threads} :: t in g[m].threads <==> (t < |g| && g[t].leader == m)
    {
      if m == l { NoDupSnoc(f[l].threads, |f|); }
    }
  }

  lemma ThreadLinked(f: Forest, current: nat, cloneParent: bool)
    requires WellFormed(f) && current < |f|
    ensures var g := Linked(f, current, cloneParent, true);
      WellFormed(g) && g[|f|].realParent == f[current].realParent && g[|f|].leader == f[current].leader
  {
    var g := Linked(f, current, cloneParent, true);
    ThreadLinkedThreads(f, current, cloneParent);
    assert ChildrenOk(g) by {
      assert forall t :: 0 <= t < |f| ==>
          g[t].leader == f[t].leader && g[t].children == f[t].children && g[t].realParent == f[t].realParent;
      assert forall p :: 0 <= p < |f| ==> NoDup(g[p].children);
    }
  }

  lemma ProcessLinked(f: Forest, current: nat, cloneParent: bool)
    requires WellFormed(f) && current < |f|
    ensures var g := Linked(f, current, cloneParent, false);
      && WellFormed(g) && g[|f|].leader == |f|
      && g[|f|].realParent == if cloneParent then f[current].realParent else current
  {
    var g := Linked(f, current, cloneParent, false);
    var parent := if cloneParent then f[current].realParent else current;
    assert forall t :: 0 <= t < |f| ==>
        g[t].leader == f[t].leader && g[t].threads == f[t].threads && g[t].realParent == f[t].realParent;
    assert LeadersOk(g);
    assert ThreadsOk(g);
    assert ChildrenOk(g) by {
      forall p | 0 <= p < |g|
        ensures NoDup(g[p].children)
        ensures forall c: nat {:trigger c in g[p].children} ::
          c in g[p].children <==> (0 < c < |g| && g[c].leader == c && g[c].realParent == p)
      {
        if p == parent { NoDupSnoc(f[p].children, |f|); }
      }
    }
  }

  datatype Clone = Clone(current: nat, cloneParent: bool, cloneThread: bool)

  /** Whose child, and in whose group, the task is that a clone adds to the forest `f`. */
  predicate NewTask(f: Forest, g: Forest, c: Clone) {
    if c.current >= |f| then g == f
    else
      && |g| == |f| + 1
      && g[|f|].realParent == (if c.cloneParent || c.cloneThread then f[c.current].realParent else c.current)
      && g[|f|].leader == (if c.cloneThread then f[c.current].leader else |f|)
  }

  /** The forest a sequence of clones builds from init_task, skipping callers that do not exist. */
  function Built(clones: seq<Clone>): (f: Forest)
    ensures WellFormed(f)
    ensures clones != [] ==> NewTask(Built(clones[..|clones| - 1]), f, clones[|clones| - 1])
  {
    if clones == [] then
      var f := [Task(0, 0, [], [0])];
      assert WellFormed(f);
      f
    else
      var f := Built(clones[..|clones| - 1]);
      var c := clones[|clones| - 1];
      if c.current < |f| then
        if c.cloneThread then ThreadLinked(f, c.current, c.cloneParent); Linked(f, c.current, c.cloneParent, true)
        else ProcessLinked(f, c.current, c.cloneParent); Linked(f, c.current, c.cloneParent, false)
      else f
  }

  // ----- The groups of the forest -----

  /** The children of the threads `ts`, thread by thread. */
  function KidsOf(f: Forest, ts: seq<nat>): (kids: seq<nat>)
    requires forall i :: 0 <= i < |ts| ==> ts[i] < |f|
  {
    if ts == [] then [] else f[ts[0]].children + KidsOf(f, ts[1..])
  }

  ghost predicate ThreadsOf(f: Forest, l: nat, ts: seq<nat>) {
    l < |f| && f[l].leader == l && NoDup(ts) && forall i :: 0 <= i < |ts| ==> ts[i] < |f| && f[ts[i]].leader == l
  }

  lemma {:induction false} KidsOfGroup(f: Forest, l: nat, ts: seq<nat>)
    requires WellFormed(f) && ThreadsOf(f, l, ts)
    ensures NoDup(KidsOf(f, ts))
    ensures forall c: nat {:trigger c in KidsOf(f, ts)} ::
      c in KidsOf(f, ts) <==> (0 < c < |f| && f[c].leader == c && f[c].realParent in ts)
    ensures forall c: nat {:trigger c in KidsOf(f, ts)} ::
      c in KidsOf(f, ts) ==> l < c && f[f[c].realParent].leader == l
  {
    if ts != [] {
      var p, rest := ts[0], ts[1..];
      KidsOfGroup(f, l, rest);
      assert ts == [p] + rest && p !in rest;
      assert NoDup(f[p].children);
      forall c | c in f[p].children ensures c !in KidsOf(f, rest) {
        assert f[c].realParent == p;
      }
      NoDupConcat(f[p].children, KidsOf(f, rest));
    }
  }

  lemma LeaderThreads(f: Forest, l: nat)
    requires WellFormed(f) && l < |f| && f[l].leader == l
    ensures ThreadsOf(f, l, f[l].threads)
  {
    var ts := f[l].threads;
    forall i | 0 <= i < |ts| ensures ts[i] < |f| && f[ts[i]].leader == l { assert ts[i] in ts; }
  }

  /** The list of children of the whole thread group `l`. */
  function GroupKids(f: Forest, l: nat): (kids: seq<nat>)
    requires WellFormed(f) && l < |f|
    ensures NoDup(kids)
    ensures forall c: nat {:trigger c in kids} ::
      c in kids <==> (0 < c < |f| && f[c].leader == c && f[f[c].realParent].leader == l && f[l].leader == l)
    ensures forall c: nat :: c in kids ==> l < c
  {
    if f[l].leader == l then
      LeaderThreads(f, l);
      KidsOfGroup(f, l, f[l].threads);
      KidsOf(f, f[l].threads)
    else []
  }

  ghost function PosIn(kids: seq<nat>, c: nat): nat {
    if c in kids then IndexOf(kids, c) else 0
  }

  function Kids(f: Forest): (g: seq<seq<nat>>)
    requires WellFormed(f)
    ensures |g| == |f| && forall l :: 0 <= l < |f| ==> g[l] == GroupKids(f, l)
    ensures Ascends(g)
  {
    var g := seq(|f|, l requires 0 <= l < |f| => GroupKids(f, l));
    assert forall l, i :: 0 <= l < |g| && 0 <= i < |g[l]| ==> g[l][i] in GroupKids(f, l);
    g
  }

  /** The thread group a task's real parent belongs to. */
  ghost function GroupAbove(f: Forest, c: nat): (u: nat)
    requires WellFormed(f) && c < |f|
    ensures u < |f|
  {
    f[f[c].realParent].leader
  }

  lemma PlaceOf(f: Forest, l: nat, i: nat)
    requires WellFormed(f) && l < |f| && i < |GroupKids(f, l)|
    ensures var c := GroupKids(f, l)[i];
            c < |f| && GroupAbove(f, c) == l && PosIn(GroupKids(f, l), c) == i
  {
    hide WellFormed;
    assert GroupKids(f, l)[i] in GroupKids(f, l);
  }

  ghost function ShapeOf(f: Forest): (g: Shape)
    requires WellFormed(f)
    ensures Valid(g) && g.kids == Kids(f) && |g.up| == |g.pos| == |f|
    ensures forall c {:trigger g.up[c]} :: 0 <= c < |f| ==> g.up[c] == GroupAbove(f, c)
  {
    hide WellFormed, GroupKids, GroupAbove;
    var up := seq(|f|, c requires 0 <= c < |f| => GroupAbove(f, c));
    var pos := seq(|f|, c requires 0 <= c < |f| => PosIn(GroupKids(f, GroupAbove(f, c)), c));
    var g := Shape(Kids(f), up, pos);
    assert Valid(g) by {
      forall l, i | 0 <= l < |g.kids| && 0 <= i < |g.kids[l]|
        ensures g.up[g.kids[l][i]] == l && g.pos[g.kids[l][i]] == i
      {
        PlaceOf(f, l, i);
      }
    }
    g
  }

  // ----- Where the two list cursors stand -----

  ghost predicate Bounded(f: Forest, ts: seq<nat>) {
    forall i :: 0 <= i < |ts| ==> ts[i] < |f|
  }

  /** What is left of the children of the threads `ts` at cursor position (`parent`, `child`). */
  ghost function Pending(f: Forest, ts: seq<nat>, parent: nat, child: Option<nat>): seq<nat>
    requires Bounded(f, ts) && parent in ts && (child.Some? ==> child.value in f[parent].children)
  {
    (if child.Some? then [child.value] + After(f[parent].children, child.value) else [])
    + KidsOf(f, After(ts, parent))
  }

  lemma PendingStart(f: Forest, ts: seq<nat>)
    requires Bounded(f, ts) && ts != []
    ensures Pending(f, ts, ts[0], First(f[ts[0]].children)) == KidsOf(f, ts)
  {
    AfterHead(ts);
    var s := f[ts[0]].children;
    if s != [] {
      AfterHead(s);
      assert s == [s[0]] + s[1..];
    }
  }

  lemma PendingNextThread(f: Forest, ts: seq<nat>, p: nat)
    requires Bounded(f, ts) && NoDup(ts) && p in ts && After(ts, p) != []
    ensures var q := After(ts, p)[0];
            q in ts && Pending(f, ts, q, First(f[q].children)) == Pending(f, ts, p, None) &&
                |After(ts, q)| < |After(ts, p)|
  {
    AfterNext(ts, p);
    var q := After(ts, p)[0];
    if f[q].children != [] { AfterHead(f[q].children); }
    assert KidsOf(f, After(ts, p)) == f[q].children + KidsOf(f, After(ts, q));
  }

  lemma PendingSibling(f: Forest, ts: seq<nat>, p: nat, c: nat)
    requires Bounded(f, ts) && p in ts && NoDup(f[p].children) && c in f[p].children
    ensures Pending(f, ts, p, Some(c)) == [c] + Pending(f, ts, p, First(After(f[p].children, c)))
  {
    var s := f[p].children;
    if After(s, c) != [] { AfterNext(s, c); }
  }

  /** A list of children before and from `c` on. */
  lemma SplitAt(s: seq<nat>, c: nat, later: seq<nat>) returns (before: seq<nat>)
    requires c in s
    ensures s + later == before + ([c] + After(s, c) + later)
  {
    before := s[..IndexOf(s, c)];
    assert s == before + ([c] + After(s, c));
  }

  /** Every position is a suffix of the whole list of children. */
  lemma {:induction false} PendingIsSuffix(f: Forest, ts: seq<nat>, p: nat, c: nat) returns (before: seq<nat>)
    requires Bounded(f, ts) && p in ts && c in f[p].children
    ensures KidsOf(f, ts) == before + Pending(f, ts, p, Some(c))
  {
    hide After;
    if ts[0] == p {
      AfterHead(ts);
      before := SplitAt(f[p].children, c, KidsOf(f, ts[1..]));
    } else {
      AfterTail(ts, p);
      var b := PendingIsSuffix(f, ts[1..], p, c);
      before := f[ts[0]].children + b;
      var w := Pending(f, ts, p, Some(c));
      assert f[ts[0]].children + (b + w) == before + w;
    }
  }

  /** The cursors stand at index `i` of the group's children. */
  ghost predicate At(f: Forest, leader: nat, parent: nat, child: Option<nat>, i: nat)
    requires WellFormed(f)
  {
    && leader < |f| && f[leader].leader == leader
    && Bounded(f, f[leader].threads)
    && parent in f[leader].threads && (child.Some? ==> child.value in f[parent].children)
    && i <= |GroupKids(f, leader)| && Pending(f, f[leader].threads, parent, child) == GroupKids(f, leader)[i..]
  }

  lemma AtStart(f: Forest, l: nat)
    requires WellFormed(f) && l < |f| && f[l].leader == l
    ensures f[l].threads[0] < |f|
    ensures At(f, l, f[l].threads[0], First(f[f[l].threads[0]].children), 0)
  {
    LeaderThreads(f, l);
    PendingStart(f, f[l].threads);
  }

  lemma AtNextThread(f: Forest, l: nat, p: nat, i: nat)
    requires WellFormed(f) && At(f, l, p, None, i) && After(f[l].threads, p) != []
    ensures var q := After(f[l].threads, p)[0];
            q < |f| && At(f, l, q, First(f[q].children), i) && |After(f[l].threads, q)| < |After(f[l].threads, p)|
  {
    LeaderThreads(f, l);
    PendingNextThread(f, f[l].threads, p);
  }

  lemma AtNextSibling(f: Forest, l: nat, p: nat, c: nat, i: nat)
    requires WellFormed(f) && At(f, l, p, Some(c), i)
    ensures i < |GroupKids(f, l)| && GroupKids(f, l)[i] == c
    ensures At(f, l, p, First(After(f[p].children, c)), i + 1)
  {
    PendingSibling(f, f[l].threads, p, c);
    assert GroupKids(f, l)[i + 1..] == GroupKids(f, l)[i..][1..];
  }

  lemma AtEnd(f: Forest, l: nat, p: nat, i: nat)
    requires WellFormed(f) && At(f, l, p, None, i) && After(f[l].threads, p) == []
    ensures l < |f| && i == |GroupKids(f, l)|
  {
    hide WellFormed, GroupKids;
    assert Pending(f, f[l].threads, p, None) == [];
  }

  lemma GroupOf(f: Forest, t: nat)
    requires WellFormed(f) && t < |f|
    ensures f[t].leader < |f| && f[f[t].leader].leader == f[t].leader && |f[f[t].leader].threads| > 0
  {
  }

  lemma AtHere(f: Forest, c: nat)
    requires WellFormed(f) && IsKid(ShapeOf(f), c)
    ensures var p := f[c].realParent;
            c in f[p].children && At(f, f[p].leader, p, Some(c), ShapeOf(f).pos[c])
  {
    var g := ShapeOf(f);
    var p := f[c].realParent;
    var l := f[p].leader;
    assert c in g.kids[l];
    LeaderThreads(f, l);
    var before := PendingIsSuffix(f, f[l].threads, p, c);
    assert g.kids[l][|before|] == c;
  }

  /** At `up` the cursors are recovered from the child's own links. */
  lemma AtUp(f: Forest, c: nat)
    requires WellFormed(f) && IsKid(ShapeOf(f), c)
    ensures var p := f[c].realParent;
            && p < |f| && c in f[p].children
            && At(f, f[p].leader, p, First(After(f[p].children, c)), ShapeOf(f).pos[c] + 1)
  {
    AtHere(f, c);
    hide WellFormed, ShapeOf;
    AtNextSibling(f, f[f[c].realParent].leader, f[c].realParent, c, ShapeOf(f).pos[c]);
  }

  // ----- The walk -----

  /** The loop invariant: the calls so far and the rest of the recursion make up the whole. */
  ghost predicate Walking<S>(f: Forest, top: nat, leader: nat, parent: nat, child: Option<nat>, i: nat,
                             visitor: (nat, S) -> (int, S), out: S, calls: seq<nat>, whole: Walk<S>)
  {
    && WellFormed(f) && Under(ShapeOf(f), top, leader) && At(f, leader, parent, child, i)
    && var r := Resume(ShapeOf(f), top, leader, i, visitor, out);
       whole == Walk(r.stopped, r.data, calls + r.calls)
  }

  ghost function Left(f: Forest, top: nat, leader: nat, i: nat): nat {
    if WellFormed(f) && Under(ShapeOf(f), top, leader) && i <= |ShapeOf(f).kids[leader]|
    then SizeToTop(ShapeOf(f), top, leader, i) else 0
  }

  lemma InRange<S>(f: Forest, top: nat, leader: nat, parent: nat, child: Option<nat>, i: nat,
                   visitor: (nat, S) -> (int, S), out: S, calls: seq<nat>, whole: Walk<S>)
    requires Walking(f, top, leader, parent, child, i, visitor, out, calls, whole)
    ensures leader < |f| && parent < |f| && parent in f[leader].threads
    ensures child.Some? ==> child.value < |f| && child.value in f[parent].children && |f[child.value].threads| > 0
    ensures child.Some? ==> f[child.value].threads[0] < |f|
    ensures leader != top ==> f[leader].realParent < |f| && leader in f[f[leader].realParent].children
  {
    LeaderThreads(f, leader);
    if child.Some? { GroupOf(f, child.value); AtStart(f, child.value); }
    if leader != top { AtUp(f, leader); }
  }

  lemma Begins<S>(f: Forest, start: nat, visitor: (nat, S) -> (int, S), data: S)
    requires WellFormed(f) && start < |f|
    ensures var top := f[start].leader;
      && top < |f| && |f[top].threads| > 0 && f[top].threads[0] < |f|
      && var p := f[top].threads[0];
         Walking(f, top, top, p, First(f[p].children), 0, visitor, data, [], Preorder(Kids(f), top, 0, visitor, data))
  {
    hide WellFormed, ShapeOf, Valid, At, Preorder;
    GroupOf(f, start);
    AtStart(f, f[start].leader);
    var r := Resume(ShapeOf(f), f[start].leader, f[start].leader, 0, visitor, data);
    assert [] + r.calls == r.calls;
  }

  lemma Stops<S>(f: Forest, top: nat, leader: nat, parent: nat, c: nat, i: nat,
                   visitor: (nat, S) -> (int, S), out: S, calls: seq<nat>, whole: Walk<S>)
    requires Walking(f, top, leader, parent, Some(c), i, visitor, out, calls, whole)
    requires visitor(c, out).0 < 0
    ensures whole.data == visitor(c, out).1 && whole.calls == calls + [c]
  {
    hide WellFormed, ShapeOf, Valid;
    AtNextSibling(f, leader, parent, c, i);
    assert Resume(ShapeOf(f), top, leader, i, visitor, out) == Walk(true, visitor(c, out).1, [c]);
  }

  lemma Skips<S>(f: Forest, top: nat, leader: nat, parent: nat, c: nat, i: nat,
                   visitor: (nat, S) -> (int, S), out: S, calls: seq<nat>, whole: Walk<S>)
    requires Walking(f, top, leader, parent, Some(c), i, visitor, out, calls, whole)
    requires c < |f| && parent < |f| && c in f[parent].children && visitor(c, out).0 == 0
    ensures Walking(f, top, leader, parent, First(After(f[parent].children, c)), i + 1, visitor,
                    visitor(c, out).1, calls + [c], whole)
    ensures Left(f, top, leader, i + 1) < Left(f, top, leader, i)
  {
    hide WellFormed, At, ShapeOf, Valid, SizeToTop, Resume, Preorder, Kids, GroupKids;
    var g := ShapeOf(f);
    AtNextSibling(f, leader, parent, c, i);
    SizeSkips(g, top, leader, i);
    ResumeSkips(g, top, leader, i, visitor, out);
    var r := Resume(g, top, leader, i + 1, visitor, visitor(c, out).1);
    assert calls + ([c] + r.calls) == calls + [c] + r.calls;
  }

  lemma Descends<S>(f: Forest, top: nat, leader: nat, parent: nat, c: nat, i: nat,
                   visitor: (nat, S) -> (int, S), out: S, calls: seq<nat>, whole: Walk<S>)
    requires Walking(f, top, leader, parent, Some(c), i, visitor, out, calls, whole)
    requires c < |f| && |f[c].threads| > 0 && f[c].threads[0] < |f| && visitor(c, out).0 > 0
    ensures Walking(f, top, c, f[c].threads[0], First(f[f[c].threads[0]].children), 0, visitor,
                    visitor(c, out).1, calls + [c], whole)
    ensures Left(f, top, c, 0) < Left(f, top, leader, i)
  {
    hide WellFormed, At, ShapeOf, Valid, SizeToTop, Resume, Preorder, Kids, GroupKids;
    var g := ShapeOf(f);
    AtNextSibling(f, leader, parent, c, i);
    UnderKid(g, top, leader, i);
    SizeDescends(g, top, leader, i);
    assert f[c].leader == c by { assert c in GroupKids(f, leader); }
    AtStart(f, c);
    ResumeDescends(g, top, leader, i, visitor, out);
    var r := Resume(g, top, c, 0, visitor, visitor(c, out).1);
    assert calls + ([c] + r.calls) == calls + [c] + r.calls;
  }

  lemma ChildrenDone<S>(f: Forest, top: nat, leader: nat, parent: nat, i: nat,
                        visitor: (nat, S) -> (int, S), out: S, calls: seq<nat>, whole: Walk<S>)
    requires Walking(f, top, leader, parent, None, i, visitor, out, calls, whole)
    requires leader < |f| && parent in f[leader].threads
    ensures var later := After(f[leader].threads, parent);
      && (later != [] ==>
            && later[0] < |f|
            && Walking(f, top, leader, later[0], First(f[later[0]].children), i, visitor, out, calls, whole)
            && later[0] in f[leader].threads && |After(f[leader].threads, later[0])| < |later|)
      && (later == [] && leader == top ==> whole.data == out && whole.calls == calls)
  {
    if After(f[leader].threads, parent) != [] {
      AtNextThread(f, leader, parent, i);
    }
  }

  lemma Up<S>(f: Forest, top: nat, leader: nat, parent: nat, i: nat,
              visitor: (nat, S) -> (int, S), out: S, calls: seq<nat>, whole: Walk<S>) returns (i': nat)
    requires Walking(f, top, leader, parent, None, i, visitor, out, calls, whole)
    requires leader < |f| && parent in f[leader].threads && After(f[leader].threads, parent) == [] && leader != top
    ensures var p := f[leader].realParent;
      && p < |f| && leader in f[p].children
      && Walking(f, top, f[p].leader, p, First(After(f[p].children, leader)), i', visitor, out, calls, whole)
      && Left(f, top, f[p].leader, i') < Left(f, top, leader, i)
  {
    hide WellFormed, ShapeOf, Valid, SizeToTop, Resume, At, Kids, GroupKids;
    AtUp(f, leader);
    AtEnd(f, leader, parent, i);
    i' := ShapeOf(f).pos[leader] + 1;
    SizeGoesUp(ShapeOf(f), top, leader, i);
    ResumeGoesUp(ShapeOf(f), top, leader, visitor, out);
  }

  /**
   * walk_process_tree.  `parent` and `child` are the two list cursors; a `child` of None is
   * the end of the inner list.  There is no stack.
   */
  method WalkProcessTree<S>(f: Forest, start: nat, visitor: (nat, S) -> (int, S), data: S)
    returns (out: S, calls: seq<nat>)
    requires WellFormed(f) && start < |f|
    ensures var w := Preorder(Kids(f), f[start].leader, 0, visitor, data);
            out == w.data && calls == w.calls
  {
    hide WellFormed, Walking, Left, Preorder;
    Begins(f, start, visitor, data);
    ghost var whole, i := Preorder(Kids(f), f[start].leader, 0, visitor, data), 0;
    var top: nat := f[start].leader;
    var leader: nat := top;
    var parent: nat := f[leader].threads[0];
    var child := First(f[parent].children);
    out, calls := data, [];
    while true
      invariant Walking(f, top, leader, parent, child, i, visitor, out, calls, whole)
      invariant leader < |f| && parent in f[leader].threads
      decreases Left(f, top, leader, i), |After(f[leader].threads, parent)|
    {
      InRange(f, top, leader, parent, child, i, visitor, out, calls, whole);
      if child.Some? {
        var c := child.value;
        var (res, out1) := visitor(c, out);
        if res < 0 {
          Stops(f, top, leader, parent, c, i, visitor, out, calls, whole);
          out, calls := out1, calls + [c];
          return;
        } else if res > 0 {
          Descends(f, top, leader, parent, c, i, visitor, out, calls, whole);
          leader := c;
          parent := f[leader].threads[0];
          child := First(f[parent].children);
          i := 0;
        } else {
          Skips(f, top, leader, parent, c, i, visitor, out, calls, whole);
          child := First(After(f[parent].children, c));
          i := i + 1;
        }
        out, calls := out1, calls + [c];
      } else {
        ChildrenDone(f, top, leader, parent, i, visitor, out, calls, whole);
        var later := After(f[leader].threads, parent);
        if later != [] {
          parent := later[0];
          child := First(f[parent].children);
        } else if leader != top {
          i := Up(f, top, leader, parent, i, visitor, out, calls, whole);
          var up := leader;
          parent := f[up].realParent;
          leader := f[parent].leader;
          child := First(After(f[parent].children, up));
        } else {
          return;
        }
      }
      InRange(f, top, leader, parent, child, i, visitor, out, calls, whole);
    }
  }

  /** A process below `top` such that every process on the way down to it was answered positively. */
  ghost predicate AnsweredDownTo(f: Forest, top: nat, answer: nat -> int, x: nat)
    requires WellFormed(f)
    decreases x
  {
    && 0 < x < |f| && f[x].leader == x && GroupAbove(f, x) < x
    && (GroupAbove(f, x) == top || (answer(GroupAbove(f, x)) > 0 && AnsweredDownTo(f, top, answer, GroupAbove(f, x))))
  }

  lemma KidIsProcess(f: Forest, x: nat)
    requires WellFormed(f) && x < |f|
    ensures IsKid(ShapeOf(f), x) <==> 0 < x && f[x].leader == x && GroupAbove(f, x) < x
  {
    var l := GroupAbove(f, x);
    if 0 < x && f[x].leader == x && l < x {
      GroupOf(f, f[x].realParent);
      assert x in GroupKids(f, l);
      var i := IndexOf(GroupKids(f, l), x);
      assert ShapeOf(f).kids[l][i] == x;
    }
  }

  lemma {:induction false} AnsweredIsReached(f: Forest, top: nat, answer: nat -> int, x: nat)
    requires WellFormed(f)
    ensures AnsweredDownTo(f, top, answer, x) <==> Reached(ShapeOf(f), top, answer, x)
    decreases x
  {
    if x < |f| {
      KidIsProcess(f, x);
      hide WellFormed, ShapeOf, Valid, IsKid, GroupAbove;
      if IsKid(ShapeOf(f), x) { AnsweredIsReached(f, top, answer, GroupAbove(f, x)); }
    }
  }

  /**
   * In every forest that clones can build, the walk never calls its visitor twice on a task;
   * and if the answers depend on the task alone and none is negative, it calls it on exactly
   * the processes below the start whose ancestors below the start were all answered positively.
   */
  lemma WalkVisitsExactly<S(!new)>(clones: seq<Clone>, start: nat, answer: nat -> int,
                                   visitor: (nat, S) -> (int, S), data: S, x: nat)
    requires start < |Built(clones)|
    ensures var f := Built(clones);
            var top := f[start].leader;
            var calls := Preorder(Kids(f), top, 0, visitor, data).calls;
            && NoDup(calls)
            && (AnswersBy(visitor, answer) ==> (x in calls <==> AnsweredDownTo(f, top, answer, x)))
  {
    var f := Built(clones);
    GroupOf(f, start);
    hide WellFormed, ShapeOf, Valid;
    var top := f[start].leader;
    CalledOnce(ShapeOf(f), top, 0, visitor, data);
    if AnswersBy(visitor, answer) {
      CallsAreTheReached(ShapeOf(f), top, 0, answer, visitor, data, x);
      AnsweredIsReached(f, top, answer, x);
      if Reached(ShapeOf(f), top, answer, x) { ReachedIsUnder(ShapeOf(f), top, answer, x); }
    }
  }

  // ----- What one clone does to the walks -----

  /** The calls of a walk from `start` whose visitor answers `answer` and never stops it. */
  ghost function Visited(f: Forest, start: nat, answer: nat -> int): (calls: seq<nat>)
    requires WellFormed(f) && start < |f|
  {
    var top := f[start].leader;
    Flat(Kids(f), top, Kids(f)[top], answer)
  }

  lemma VisitedIsWalked<S(!new)>(f: Forest, start: nat, answer: nat -> int, visitor: (nat, S) -> (int, S), data: S)
    requires WellFormed(f) && start < |f| && AnswersBy(visitor, answer)
    ensures Preorder(Kids(f), f[start].leader, 0, visitor, data).calls == Visited(f, start, answer)
  {
    hide WellFormed, Kids;
    GroupOf(f, start);
    var top := f[start].leader;
    PreorderIsFlat(Kids(f), top, 0, answer, visitor, data);
    assert Kids(f)[top][0..] == Kids(f)[top];
  }

  lemma {:induction false} KidsOfConcat(f: Forest, a: seq<nat>, b: seq<nat>)
    requires Bounded(f, a) && Bounded(f, b)
    ensures Bounded(f, a + b) && KidsOf(f, a + b) == KidsOf(f, a) + KidsOf(f, b)
  {
    if a == [] {
      assert a + b == b;
    } else {
      assert (a + b)[1..] == a[1..] + b && (a + b)[0] == a[0];
      KidsOfConcat(f, a[1..], b);
      Regroup(f[a[0]].children, KidsOf(f, a[1..]), KidsOf(f, b));
    }
  }

  lemma KidsOfOne(f: Forest, t: nat)
    requires t < |f|
    ensures Bounded(f, [t]) && KidsOf(f, [t]) == f[t].children
  {
    assert KidsOf(f, [t][1..]) == [];
  }

  lemma KidsOfMore(f: Forest, g: Forest, pre: seq<nat>, parent: nat, post: seq<nat>)
    requires Bounded(f, pre) && Bounded(f, post) && |g| == |f| + 1 && parent < |f| && parent !in pre && parent !in post
    requires forall t :: 0 <= t < |f| ==> g[t].children == f[t].children + if t == parent then [|f|] else []
    ensures Bounded(f, pre + [parent]) && Bounded(f, pre + [parent] + post)
    ensures KidsOf(f, pre + [parent] + post) == KidsOf(f, pre + [parent]) + KidsOf(f, post)
    ensures KidsOf(g, pre + [parent] + post) == KidsOf(f, pre + [parent]) + [|f|] + KidsOf(f, post)
  {
    hide KidsOf;
    KidsOfOne(f, parent);
    KidsOfOne(g, parent);
    KidsOfConcat(f, pre, [parent]);
    KidsOfConcat(f, pre + [parent], post);
    KidsOfConcat(g, pre, [parent]);
    KidsOfConcat(g, pre + [parent], post);
    KidsOfSame(f, g, pre, parent);
    KidsOfSame(f, g, post, parent);
    Regroup(KidsOf(f, pre), f[parent].children, [|f|]);
  }

  lemma {:induction false} KidsOfSame(f: Forest, g: Forest, ts: seq<nat>, parent: nat)
    requires Bounded(f, ts) && |g| == |f| + 1 && parent !in ts
    requires forall t :: 0 <= t < |f| && t != parent ==> g[t].children == f[t].children
    ensures KidsOf(g, ts) == KidsOf(f, ts)
  {
    if ts != [] { KidsOfSame(f, g, ts[1..], parent); }
  }

  /** The second forest has one process more, the last child of `parent`. */
  ghost predicate HungInto(f: Forest, g: Forest, parent: nat) {
    && WellFormed(f) && WellFormed(g) && |g| == |f| + 1 && parent < |f|
    && (forall t :: 0 <= t < |f| ==>
          && g[t].leader == f[t].leader && g[t].threads == f[t].threads
          && g[t].children == f[t].children + if t == parent then [|f|] else [])
    && g[|f|].leader == |f| && g[|f|].threads == [|f|] && g[|f|].children == []
  }

  /** The second forest has one thread more, the last one of group `l`. */
  ghost predicate JoinedTo(f: Forest, g: Forest, l: nat) {
    && WellFormed(f) && WellFormed(g) && |g| == |f| + 1 && l < |f|
    && (forall t :: 0 <= t < |f| ==>
          && g[t].leader == f[t].leader && g[t].children == f[t].children
          && g[t].threads == f[t].threads + if t == l then [|f|] else [])
    && g[|f|].leader == l == f[l].leader && g[|f|].children == []
  }

  /** The children of the group before and behind the new one. */
  lemma HungKids(f: Forest, g: Forest, parent: nat) returns (a: seq<nat>, b: seq<nat>)
    requires HungInto(f, g, parent)
    ensures f[parent].leader < |f| && OneMore(Kids(f), Kids(g), f[parent].leader, a, b)
    ensures forall c :: 0 < c < |f| && f[c].leader == c && f[c].realParent == parent ==> c in a
  {
    GroupOf(f, parent);
    var l := f[parent].leader;
    a, b := SplitKids(f, g, parent);
    assert Kids(f)[l] == a + b;
    assert Kids(g)[l] == a + [|f|] + b;
    NewHasNone(g, |f|);
    assert Kids(g)[|f|] == [];
    forall m | 0 <= m < |f| && m != l ensures Kids(g)[m] == Kids(f)[m] { OtherKids(f, g, parent, m); }
  }

  lemma SplitKids(f: Forest, g: Forest, parent: nat) returns (a: seq<nat>, b: seq<nat>)
    requires HungInto(f, g, parent)
    ensures f[parent].leader < |f|
    ensures var l := f[parent].leader; GroupKids(f, l) == a + b && GroupKids(g, l) == a + [|f|] + b
    ensures forall c :: 0 < c < |f| && f[c].leader == c && f[c].realParent == parent ==> c in a
  {
    GroupOf(f, parent);
    var l := f[parent].leader;
    LeaderThreads(f, l);
    var ts := f[l].threads;
    assert parent in ts;
    var i := IndexOf(ts, parent);
    var pre, post := ts[..i], After(ts, parent);
    assert ts == pre + [parent] + post && parent !in pre && parent !in post;
    KidsOfMore(f, g, pre, parent, post);
    a, b := KidsOf(f, pre + [parent]), KidsOf(f, post);
    KidsOfGroup(f, l, pre + [parent]);
  }

  lemma NewHasNone(g: Forest, p: nat)
    requires WellFormed(g) && p < |g| && g[p].leader == p && g[p].threads == [p] && g[p].children == []
    ensures GroupKids(g, p) == []
  {
    assert KidsOf(g, [p]) == [];
  }

  lemma OtherKids(f: Forest, g: Forest, parent: nat, m: nat)
    requires HungInto(f, g, parent) && m < |f| && m != f[parent].leader
    ensures GroupKids(g, m) == GroupKids(f, m)
  {
    if f[m].leader == m {
      LeaderThreads(f, m);
      assert parent !in f[m].threads;
      KidsOfSame(f, g, f[m].threads, parent);
    }
  }

  /** What a walk sees of a new process: it comes behind its siblings, if its parent's group is seen. */
  ghost predicate ProcessSeen(f: Forest, g: Forest, parent: nat, start: nat, answer: nat -> int)
    requires WellFormed(f) && WellFormed(g) && |g| == |f| + 1 && start < |f| && parent < |f|
  {
    var calls, calls', l := Visited(f, start, answer), Visited(g, start, answer), f[parent].leader;
    && Except<nat>(calls', |f|) == calls
    && (|f| in calls' <==> l == f[start].leader || (l in calls && answer(l) > 0))
    && (|f| in calls' ==>
          forall c :: 0 < c < |f| && f[c].leader == c && f[c].realParent == parent ==> Before<nat>(calls', c, |f|))
  }

  lemma HungIsSeen(f: Forest, g: Forest, parent: nat, start: nat, answer: nat -> int)
    requires HungInto(f, g, parent) && start < |f|
    ensures ProcessSeen(f, g, parent, start, answer)
  {
    hide WellFormed, Kids, OneMore, Before, Except, Flat;
    var a, b := HungKids(f, g, parent);
    GroupOf(f, start);
    var top, l := f[start].leader, f[parent].leader;
    BelowOneMore(Kids(f), Kids(g), l, a, b, top, answer);
    NewIsMetBelow(Kids(f), Kids(g), l, a, b, top, answer);
    ExceptHas<nat>(Visited(g, start, answer), |f|, l);
  }

  lemma JoinedKids(f: Forest, g: Forest, l: nat, m: nat)
    requires JoinedTo(f, g, l) && m < |f|
    ensures GroupKids(g, m) == GroupKids(f, m)
  {
    if f[m].leader == m {
      LeaderThreads(f, m);
      KidsOfJoined(f, g, f[m].threads);
      if m != l { assert f[m].threads + [] == f[m].threads; }
    }
  }

  lemma JoinedIsUnseen(f: Forest, g: Forest, l: nat, start: nat, answer: nat -> int)
    requires JoinedTo(f, g, l) && start < |f|
    ensures Visited(g, start, answer) == Visited(f, start, answer)
  {
    GroupOf(f, start);
    forall m | 0 <= m < |f| ensures Kids(g)[m] == Kids(f)[m] { JoinedKids(f, g, l, m); }
    FlatSame(Kids(f), Kids(g), f[start].leader, Kids(f)[f[start].leader], answer);
  }

  lemma {:induction false} KidsOfJoined(f: Forest, g: Forest, ts: seq<nat>)
    requires Bounded(f, ts) && |g| == |f| + 1 && g[|f|].children == []
    requires forall t :: 0 <= t < |f| ==> g[t].children == f[t].children
    ensures KidsOf(g, ts) == KidsOf(f, ts) == KidsOf(g, ts + [|f|])
  {
    if ts == [] {
      assert ts + [|f|] == [|f|];
    } else {
      KidsOfJoined(f, g, ts[1..]);
      assert (ts + [|f|])[1..] == ts[1..] + [|f|];
    }
  }

  /** The process that a clone without CLONE_THREAD makes a child of. */
  function ParentFor(f: Forest, current: nat, cloneParent: bool): nat
    requires current < |f|
  {
    if cloneParent then f[current].realParent else current
  }

  lemma CloneIsHung(f: Forest, current: nat, cloneParent: bool, cloneThread: bool)
    requires WellFormed(f) && current < |f|
    ensures var g := Linked(f, current, cloneParent, cloneThread);
            && WellFormed(g) && ParentFor(f, current, cloneParent) < |f|
            && (cloneThread ==> JoinedTo(f, g, f[current].leader))
            && (!cloneThread ==> HungInto(f, g, ParentFor(f, current, cloneParent)))
  {
    if cloneThread { ThreadLinked(f, current, cloneParent); } else { ProcessLinked(f, current, cloneParent); }
  }

  lemma WalkAfter(f: Forest, current: nat, cloneParent: bool, cloneThread: bool, start: nat, answer: nat -> int)
    requires WellFormed(f) && current < |f| && start < |f|
    ensures var g := Linked(f, current, cloneParent, cloneThread);
      && WellFormed(g) && ParentFor(f, current, cloneParent) < |f|
      && if cloneThread then Visited(g, start, answer) == Visited(f, start, answer)
         else ProcessSeen(f, g, ParentFor(f, current, cloneParent), start, answer)
  {
    hide WellFormed, Visited, ProcessSeen, Linked;
    var g := Linked(f, current, cloneParent, cloneThread);
    CloneIsHung(f, current, cloneParent, cloneThread);
    if cloneThread {
      JoinedIsUnseen(f, g, f[current].leader, start, answer);
    } else {
      HungIsSeen(f, g, ParentFor(f, current, cloneParent), start, answer);
    }
  }

  lemma WalkFromNew(f: Forest, g: Forest, current: nat, cloneThread: bool, answer: nat -> int)
    requires WellFormed(f) && WellFormed(g) && |g| == |f| + 1 && current < |f|
    requires cloneThread ==> JoinedTo(f, g, f[current].leader)
    requires !cloneThread ==> g[|f|].leader == |f| && g[|f|].threads == [|f|] && g[|f|].children == []
    ensures Visited(g, |f|, answer) == if cloneThread then Visited(f, current, answer) else []
  {
    if cloneThread {
      JoinedIsUnseen(f, g, f[current].leader, current, answer);
    } else {
      NewHasNone(g, |f|);
    }
  }

  /** The task list as copy_process changes it. */
  class ProcessTable {
    var tasks: Forest

    /** init_task: its own parent and its own group. */
    constructor ()
      ensures WellFormed(tasks) && tasks == [Task(0, 0, [], [0])]
    {
      tasks := [Task(0, 0, [], [0])];
    }

    /**
     * Any walk that is not stopped makes the same calls as before, and in addition one on a new
     * process whose real parent's group it sees: the caller's, or with CLONE_PARENT that of the
     * caller's real parent.  A thread is a sibling of the caller that no walk sees.
     */
    method LinkNewTask(current: nat, cloneParent: bool, cloneThread: bool) returns (p: nat)
      requires WellFormed(tasks) && current < |tasks|
      modifies this
      ensures WellFormed(tasks) && tasks == Linked(old(tasks), current, cloneParent, cloneThread)
      ensures p == old(|tasks|) && |tasks| == p + 1
      ensures cloneThread ==> tasks[p].realParent == old(tasks[current].realParent)
      ensures cloneThread ==> tasks[p].leader == old(tasks[current].leader)
      ensures !cloneThread ==> tasks[p].realParent == if cloneParent then old(tasks[current].realParent) else current
      ensures !cloneThread ==> tasks[p].leader == p
      ensures forall start: nat, answer: nat -> int {:trigger Visited(tasks, start, answer)} :: start < p ==>
        if cloneThread then Visited(tasks, start, answer) == Visited(old(tasks), start, answer)
        else ProcessSeen(old(tasks), tasks, tasks[p].realParent, start, answer)
      ensures forall answer: nat -> int {:trigger Visited(tasks, p, answer)} ::
        Visited(tasks, p, answer) == if cloneThread then Visited(old(tasks), current, answer) else []
    {
      hide WellFormed, Visited, ProcessSeen;
      p := |tasks|;
      ghost var f := tasks;
      CloneIsHung(tasks, current, cloneParent, cloneThread);
      var parent := if cloneParent || cloneThread then tasks[current].realParent else current;
      if cloneThread {
        var l := tasks[current].leader;
        tasks := tasks[l := tasks[l].(threads := tasks[l].threads + [p])];
        tasks := tasks + [Task(parent, l, [], [])];
      } else {
        tasks := tasks[parent := tasks[parent].(children := tasks[parent].children + [p])];
        tasks := tasks + [Task(parent, p, [], [p])];
      }
      forall start: nat, answer: nat -> int | start < p
        ensures if cloneThread then Visited(tasks, start, answer) == Visited(f, start, answer)
                else ProcessSeen(f, tasks, ParentFor(f, current, cloneParent), start, answer)
      {
        WalkAfter(f, current, cloneParent, cloneThread, start, answer);
      }
      forall answer: nat -> int
        ensures Visited(tasks, p, answer) == if cloneThread then Visited(f, current, answer) else []
      {
        WalkFromNew(f, tasks, current, cloneThread, answer);
      }
    }
  }

  lemma VisitedKnown(f: Forest, start: nat, answer: nat -> int)
    requires WellFormed(f) && start < |f|
    ensures |f| !in Visited(f, start, answer)
  {
    GroupOf(f, start);
    FlatKnown(Kids(f), f[start].leader, Kids(f)[f[start].leader], answer);
  }

  /**
   * The same for every forest that clones can build, one more clone, and any visitor that does not
   * stop the walk, whatever data it carries along.
   */
  lemma CloneExtendsWalk<S(!new)>(clones: seq<Clone>, c: Clone, start: nat, answer: nat -> int,
                                  visitor: (nat, S) -> (int, S), data: S)
    requires c.current < |Built(clones)| && start < |Built(clones)| && AnswersBy(visitor, answer)
    ensures var f, g := Built(clones), Built(clones + [c]);
      |g| == |f| + 1 && NewTask(f, g, c)
    ensures var f, g := Built(clones), Built(clones + [c]);
      var calls := Preorder(Kids(f), f[start].leader, 0, visitor, data).calls;
      var calls' := Preorder(Kids(g), g[start].leader, 0, visitor, data).calls;
      && Except<nat>(calls', |f|) == calls
      && (|f| in calls' <==>
            && !c.cloneThread
            && var l := f[if c.cloneParent then f[c.current].realParent else c.current].leader;
               l == f[start].leader || (l in calls && answer(l) > 0))
      && (|f| in calls' ==> forall x :: 0 < x < |f| && f[x].leader == x && f[x].realParent == g[|f|].realParent ==>
            Before<nat>(calls', x, |f|))
  {
    hide WellFormed, Visited;
    var f, g := Built(clones), Built(clones + [c]);
    assert (clones + [c])[..|clones|] == clones;
    assert g == Linked(f, c.current, c.cloneParent, c.cloneThread);
    VisitedIsWalked(f, start, answer, visitor, data);
    VisitedIsWalked(g, start, answer, visitor, data);
    WalkAfter(f, c.current, c.cloneParent, c.cloneThread, start, answer);
    if c.cloneThread {
      VisitedKnown(f, start, answer);
      ExceptAbsent<nat>(Visited(f, start, answer), |f|);
    }
  }
}
