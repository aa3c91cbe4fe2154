/**
 * The reference-counted key-value store: thread clones share it, forks make a new one, and the
 * exit that drops the last count frees every node and then the store.  Clones, operations and
 * exits of any number of tasks interleave.  Using or freeing a store or a node that is not live,
 * or dropping a count that is already zero, sets `crashed`.
 */
module KvRefcount {
  import opened Lists
  import opened Holders
  import KvConcurrent

  // ----- The counts -----

  /**
   * The field kv of a task is in `kv` while the task is counted for it, in `freeing` while the task
   * frees the store, in `left` once it has given its count up without being the last.  `pending` is
   * the field of the child a task is building.  `count` has the live stores; `lost` is the number of
   * clones of a store's sharers that failed after counting.
   */
  datatype Refs = Refs(
    kv: map<nat, nat>, pending: map<nat, nat>, freeing: map<nat, nat>, left: map<nat, nat>,
    count: map<nat, nat>, lost: map<nat, nat>)

  predicate Live(x: Refs, m: map<nat, nat>, t: nat) {
    t in m && m[t] in x.count
  }

  /** The kv step of a thread clone. */
  function Share(x: Refs, t: nat): Option<Refs> {
    if !Live(x, x.kv, t) then None
    else Some(x.(count := x.count[x.kv[t] := x.count[x.kv[t]] + 1], pending := x.pending[t := x.kv[t]]))
  }

  /** The kv step of a fork: init_kv_store. */
  function Fresh(x: Refs, t: nat, s: nat): Refs {
    x.(count := x.count[s := 1], lost := x.lost[s := 0], pending := x.pending[t := s])
  }

  /** copy_process fails after the kv step: no label gives the count back. */
  function Lose(x: Refs, t: nat): Option<Refs> {
    if !Live(x, x.pending, t) || x.pending[t] !in x.lost then None
    else Some(x.(lost := x.lost[x.pending[t] := x.lost[x.pending[t]] + 1], pending := x.pending - {t}))
  }

  function Hand(x: Refs, t: nat, c: nat): Option<Refs> {
    if t !in x.pending then None else Some(x.(kv := x.kv[c := x.pending[t]], pending := x.pending - {t}))
  }

  /** refcount_dec_and_test at exit. */
  function Drop(x: Refs, t: nat): Option<Refs> {
    if !Live(x, x.kv, t) || x.count[x.kv[t]] == 0 then None
    else
      var s := x.kv[t];
      var y := x.(count := x.count[s := x.count[s] - 1], kv := x.kv - {t});
      if x.count[s] > 1 then Some(y.(left := x.left[t := s])) else Some(y.(freeing := x.freeing[t := s]))
  }

  /** kfree of the store. */
  function Release(x: Refs, t: nat): Option<Refs> {
    if !Live(x, x.freeing, t) then None
    else Some(x.(count := x.count - {x.freeing[t]}, lost := x.lost - {x.freeing[t]}, freeing := x.freeing - {t}))
  }

  /** Live sharers, children being built and failed clones make up the count; at zero one task is freeing. */
  ghost predicate Counted(x: Refs) {
    && (forall s :: s in x.count ==> s in x.lost)
    && (forall t :: t in x.kv ==> x.kv[t] in x.count)
    && (forall t :: t in x.pending ==> x.pending[t] in x.count)
    && (forall t :: t in x.freeing ==> x.freeing[t] in x.count)
    && (forall s :: s in x.count ==> x.count[s] == Cnt(x.kv, s) + Cnt(x.pending, s) + x.lost[s])
    && (forall s :: s in x.count ==> Cnt(x.freeing, s) == if x.count[s] == 0 then 1 else 0)
  }

  lemma ShareOk(x: Refs, t: nat)
    requires Counted(x) && t in x.kv && t !in x.pending
    ensures Share(x, t).Some? && Counted(Share(x, t).value)
  {
    hide Cnt;
    var y := Share(x, t).value;
    CntHeld(x.kv, t);
    forall s | s in y.count ensures y.count[s] == Cnt(y.kv, s) + Cnt(y.pending, s) + y.lost[s] {
      CntAdd(x.pending, t, x.kv[t], s);
    }
  }

  lemma FreshOk(x: Refs, t: nat, n: nat)
    requires Counted(x) && n !in x.count && t !in x.pending
    ensures Counted(Fresh(x, t, n))
  {
    hide Cnt;
    var y := Fresh(x, t, n);
    CntUnheld(x.kv, n);
    CntUnheld(x.pending, n);
    CntUnheld(x.freeing, n);
    forall s | s in y.count ensures y.count[s] == Cnt(y.kv, s) + Cnt(y.pending, s) + y.lost[s] {
      CntAdd(x.pending, t, n, s);
    }
  }

  lemma LoseOk(x: Refs, t: nat)
    requires Counted(x) && t in x.pending
    ensures Lose(x, t).Some? && Counted(Lose(x, t).value)
  {
    hide Cnt;
    var y := Lose(x, t).value;
    forall s | s in y.count ensures y.count[s] == Cnt(y.kv, s) + Cnt(y.pending, s) + y.lost[s] {
      CntDel(x.pending, t, s);
    }
  }

  lemma HandOk(x: Refs, t: nat, c: nat)
    requires Counted(x) && t in x.pending && c !in x.kv
    ensures Hand(x, t, c).Some? && Counted(Hand(x, t, c).value)
  {
    hide Cnt;
    var y := Hand(x, t, c).value;
    forall s | s in y.count ensures y.count[s] == Cnt(y.kv, s) + Cnt(y.pending, s) + y.lost[s] {
      CntDel(x.pending, t, s);
      CntAdd(x.kv, c, x.pending[t], s);
    }
  }

  lemma DropCounts(x: Refs, t: nat)
    requires Counted(x) && t in x.kv
    ensures var y := Drop(x, t);
      y.Some? && forall s :: s in y.value.count ==>
        s in y.value.lost && y.value.count[s] == Cnt(y.value.kv, s) + Cnt(y.value.pending, s) + y.value.lost[s]
  {
    hide Cnt;
    CntHeld(x.kv, t);
    forall s | s in x.count ensures Cnt(x.kv - {t}, s) == Cnt(x.kv, s) - if x.kv[t] == s then 1 else 0 {
      CntDel(x.kv, t, s);
    }
  }

  lemma DropOk(x: Refs, t: nat)
    requires Counted(x) && t in x.kv && t !in x.freeing
    ensures Drop(x, t).Some? && Counted(Drop(x, t).value)
  {
    hide Cnt;
    DropCounts(x, t);
    CntHeld(x.kv, t);
    var y := Drop(x, t).value;
    forall s | s in y.count ensures Cnt(y.freeing, s) == if y.count[s] == 0 then 1 else 0 {
      CntAdd(x.freeing, t, x.kv[t], s);
    }
  }

  lemma ReleaseOk(x: Refs, t: nat)
    requires Counted(x) && t in x.freeing
    ensures Release(x, t).Some? && Counted(Release(x, t).value)
  {
    hide Cnt;
    var y, g := Release(x, t).value, x.freeing[t];
    CntHeld(x.freeing, t);
    forall u | u in x.kv ensures x.kv[u] != g { CntHeld(x.kv, u); }
    forall u | u in x.pending ensures x.pending[u] != g { CntHeld(x.pending, u); }
    forall u | u in y.freeing ensures x.freeing[u] != g { if x.freeing[u] == g { CntTwo(x.freeing, t, u); } }
    forall s | s in y.count ensures Cnt(y.freeing, s) == if y.count[s] == 0 then 1 else 0 { CntDel(x.freeing, t, s); }
  }

  /** Nobody else is freeing, or using, the store t frees. */
  lemma SoleFreer(x: Refs, t: nat, u: nat)
    requires Counted(x) && t in x.freeing && t != u
    ensures u in x.freeing ==> x.freeing[u] != x.freeing[t]
    ensures u in x.kv ==> x.kv[u] != x.freeing[t]
  {
    hide Cnt;
    CntHeld(x.freeing, t);
    if u in x.freeing && x.freeing[u] == x.freeing[t] { CntTwo(x.freeing, t, u); }
    if u in x.kv { CntHeld(x.kv, u); }
  }

  // ----- The nodes -----

  /** `lists` has the live stores and the bucket of each node on them, `home` the live nodes and their stores. */
  datatype Nodes = Nodes(lists: map<nat, map<nat, nat>>, home: map<nat, nat>)

  function Insert(x: Nodes, s: nat, n: nat, bucket: nat): Option<Nodes> {
    if s !in x.lists then None
    else
      var l: map<nat, nat> := x.lists[s][n := bucket];
      Some(Nodes(x.lists[s := l], x.home[n := s]))
  }

  /** hlist_del and kfree of one node. */
  function Remove(x: Nodes, s: nat, n: nat): Option<Nodes> {
    if s !in x.lists || n !in x.home then None else Some(Nodes(x.lists[s := x.lists[s] - {n}], x.home - {n}))
  }

  /** Every live node is on the lists of the store it was made for, and nothing else is on any list. */
  ghost predicate Listed(x: Nodes) {
    && (forall n :: n in x.home ==> x.home[n] in x.lists && n in x.lists[x.home[n]])
    && (forall s, n :: s in x.lists && n in x.lists[s] ==>
          n in x.home && x.home[n] == s && x.lists[s][n] < KvConcurrent.BUCKETS)
  }

  lemma InsertOk(x: Nodes, s: nat, n: nat, bucket: nat)
    requires Listed(x) && s in x.lists && n !in x.home && bucket < KvConcurrent.BUCKETS
    ensures Listed(Insert(x, s, n, bucket).value)
  {
  }

  lemma RemoveOk(x: Nodes, s: nat, n: nat)
    requires Listed(x) && s in x.lists && n in x.lists[s]
    ensures Remove(x, s, n).Some? && Listed(Remove(x, s, n).value)
  {
  }

  /** The buckets of s below i are empty. */
  predicate Swept(x: Nodes, s: nat, i: nat) {
    s in x.lists && forall n :: n in x.lists[s] ==> x.lists[s][n] >= i
  }

  /** After the last bucket no live node belongs to s, and the lists without s are in order. */
  lemma SweptIsEmpty(x: Nodes, s: nat)
    requires Listed(x) && Swept(x, s, KvConcurrent.BUCKETS)
    ensures forall n :: n in x.home ==> x.home[n] != s
    ensures Listed(x.(lists := x.lists - {s}))
  {
  }

  lemma NewListed(x: Nodes, s: nat)
    requires Listed(x) && s !in x.lists
    ensures Listed(x.(lists := x.lists[s := map[]]))
  {
  }

  // ----- The machine -----

  datatype Pc =
    | User
    | InOp                      // inside read_kv or write_kv
    | CopyEarly                 // in copy_process, before the kv step; the child's field is only a copied pointer
    | CopyLate                  // after the kv step
    | Cleaning(i: nat)          // freeing the nodes of bucket i
    | Dead

  datatype State = State(pc: map<nat, Pc>, refs: Refs, nodes: Nodes, crashed: bool)

  datatype Action =
    | StartOp(t: nat) | DoInsert(t: nat, n: nat, bucket: nat) | EndOp(t: nat)
    | StartClone(t: nat) | FailEarly(t: nat)
    | ShareStore(t: nat) | NewStore(t: nat, s: nat)
    | FailLate(t: nat) | Commit(t: nat, c: nat)
    | Exit(t: nat) | FreeNode(t: nat, n: nat) | NextBucket(t: nat) | FreeStore(t: nat)

  predicate Enabled(st: State, a: Action) {
    a.t in st.pc &&
    var pc := st.pc[a.t];
    match a
    case StartOp(t) => pc.User? && t in st.refs.kv
    case DoInsert(t, n, bucket) => pc.InOp? && t in st.refs.kv && n !in st.nodes.home && bucket < KvConcurrent.BUCKETS
    case EndOp(t) => pc.InOp? && t in st.refs.kv
    case StartClone(t) => pc.User?
    case FailEarly(t) => pc.CopyEarly?
    case ShareStore(t) => pc.CopyEarly? && t in st.refs.kv
    case NewStore(t, s) => pc.CopyEarly? && s !in st.refs.count
    case FailLate(t) => pc.CopyLate?
    case Commit(t, c) => pc.CopyLate? && c !in st.pc
    case Exit(t) => pc.User?
    case FreeNode(t, n) => pc.Cleaning? && t in st.refs.freeing && At(st.nodes, st.refs.freeing[t], n, pc.i)
    case NextBucket(t) =>
      pc.Cleaning? && pc.i < KvConcurrent.BUCKETS && t in st.refs.freeing && NoneAt(st.nodes, st.refs.freeing[t], pc.i)
    case FreeStore(t) => pc == Cleaning(KvConcurrent.BUCKETS)
  }

  predicate At(x: Nodes, s: nat, n: nat, i: nat) {
    s in x.lists && n in x.lists[s] && x.lists[s][n] == i
  }

  predicate NoneAt(x: Nodes, s: nat, i: nat) {
    s in x.lists && forall n :: n in x.lists[s] ==> x.lists[s][n] != i
  }

  function Go(st: State, t: nat, pc: Pc): State {
    st.(pc := st.pc[t := pc])
  }

  function Crash(st: State): State { st.(crashed := true) }

  function GoRefs(st: State, t: nat, pc: Pc, x: Option<Refs>): State {
    if x.None? then Crash(st) else Go(st, t, pc).(refs := x.value)
  }

  function GoNodes(st: State, x: Option<Nodes>): State {
    if x.None? then Crash(st) else st.(nodes := x.value)
  }

  function Do(st: State, a: Action): State
    requires Enabled(st, a)
  {
    match a
    case StartOp(t) => Go(st, t, InOp)
    case DoInsert(t, n, bucket) => GoNodes(st, Insert(st.nodes, st.refs.kv[t], n, bucket))
    case EndOp(t) => if st.refs.kv[t] !in st.nodes.lists then Crash(st) else Go(st, t, User)
    case StartClone(t) => Go(st, t, CopyEarly)
    case FailEarly(t) => Go(st, t, User)
    case ShareStore(t) => GoRefs(st, t, CopyLate, Share(st.refs, t))
    case NewStore(t, s) =>
      Go(st, t, CopyLate).(refs := Fresh(st.refs, t, s), nodes := st.nodes.(lists := st.nodes.lists[s := map[]]))
    case FailLate(t) => GoRefs(st, t, User, Lose(st.refs, t))
    case Commit(t, c) => GoRefs(Go(st, c, User), t, User, Hand(st.refs, t, c))
    case Exit(t) =>
      if t !in st.refs.kv then Go(st, t, Dead)
      else
        var x := Drop(st.refs, t);
        GoRefs(st, t, if x.Some? && t in x.value.freeing then Cleaning(0) else Dead, x)
    case FreeNode(t, n) => GoNodes(st, Remove(st.nodes, st.refs.freeing[t], n))
    case NextBucket(t) => Go(st, t, Cleaning(st.pc[t].i + 1))
    case FreeStore(t) =>
      var x := Release(st.refs, t);
      if x.None? then Crash(st)
      else Go(st, t, Dead).(refs := x.value, nodes := st.nodes.(lists := st.nodes.lists - {st.refs.freeing[t]}))
  }

  /** The boot task, which has no store. */
  const INIT: State := State(map[0 := User], Refs(map[], map[], map[], map[], map[], map[]), Nodes(map[], map[]), false)

  /** The state after a run, or None when some action was not enabled. */
  function Exec(acts: seq<Action>): Option<State> {
    if acts == [] then Some(INIT)
    else
      var r := Exec(acts[..|acts| - 1]);
      var a := acts[|acts| - 1];
      if r.Some? && Enabled(r.value, a) then Some(Do(r.value, a)) else None
  }

  // ----- The invariant -----

  /** Which fields a task has at its pc, and how far it has got freeing. */
  predicate Local(pc: Pc, t: nat, x: Refs, y: Nodes) {
    && (t in x.kv ==> pc.User? || pc.InOp? || pc.CopyEarly? || pc.CopyLate?)
    && (t in x.pending <==> pc.CopyLate?)
    && (t in x.freeing <==> pc.Cleaning?)
    && (pc.Cleaning? ==> pc.i <= KvConcurrent.BUCKETS && Swept(y, x.freeing[t], pc.i))
  }

  ghost predicate Inv(st: State) {
    && !st.crashed && Counted(st.refs) && Listed(st.nodes)
    && (forall s :: s in st.refs.count <==> s in st.nodes.lists)
    && (forall t :: t in st.pc ==> Local(st.pc[t], t, st.refs, st.nodes))
    && (forall t :: t in st.refs.kv ==> t in st.pc)
    && (forall t :: t in st.refs.pending ==> t in st.pc)
    && (forall t :: t in st.refs.freeing ==> t in st.pc)
  }

  /** What the proofs of single steps need to know about the acting task. */
  lemma Mine(st: State, t: nat)
    requires Inv(st) && t in st.pc
    ensures Counted(st.refs) && Listed(st.nodes) && Local(st.pc[t], t, st.refs, st.nodes)
    ensures t in st.refs.kv ==> st.refs.kv[t] in st.nodes.lists
    ensures t in st.refs.freeing <==> st.pc[t].Cleaning?
  {
    hide Cnt;
  }

  lemma NodesKeep(st: State, a: Action)
    requires Inv(st) && Enabled(st, a) && (a.DoInsert? || a.FreeNode?)
    ensures Inv(Do(st, a))
  {
    hide Counted, Listed, Cnt;
    var t, x := a.t, st.refs;
    Mine(st, t);
    if a.DoInsert? { InsertOk(st.nodes, x.kv[t], a.n, a.bucket); } else { RemoveOk(st.nodes, x.freeing[t], a.n); }
    var st' := Do(st, a);
    forall u | u in st'.pc ensures Local(st'.pc[u], u, st'.refs, st'.nodes) {
      assert Local(st.pc[u], u, st.refs, st.nodes);
      if u in x.freeing && u != t { SoleFreer(x, u, t); }
    }
  }

  lemma PlainKeeps(st: State, a: Action)
    requires Inv(st) && Enabled(st, a)
    requires a.StartOp? || a.EndOp? || a.StartClone? || a.FailEarly? || a.NextBucket? || (a.Exit? && a.t !in st.refs.kv)
    ensures Inv(Do(st, a))
  {
    hide Counted, Listed;
    Mine(st, a.t);
  }

  lemma CloneKeeps(st: State, a: Action)
    requires Inv(st) && Enabled(st, a) && (a.ShareStore? || a.FailLate?)
    ensures Inv(Do(st, a))
  {
    hide Counted, Listed;
    var t := a.t;
    Mine(st, t);
    if a.ShareStore? { ShareOk(st.refs, t); } else { LoseOk(st.refs, t); }
    var st' := Do(st, a);
    forall u | u in st'.pc ensures Local(st'.pc[u], u, st'.refs, st'.nodes) {
      assert Local(st.pc[u], u, st.refs, st.nodes);
    }
  }

  lemma DropLocal(x: Refs, y: Nodes, t: nat, u: nat, pc: Pc)
    requires Drop(x, t).Some? && Local(pc, u, x, y) && u != t
    ensures Local(pc, u, Drop(x, t).value, y)
  {
    hide Swept;
  }

  lemma DropMine(x: Refs, y: Nodes, t: nat)
    requires Drop(x, t).Some? && Local(User, t, x, y) && x.kv[t] in y.lists
    ensures Local(if t in Drop(x, t).value.freeing then Cleaning(0) else Dead, t, Drop(x, t).value, y)
  {
    assert forall n :: n in y.lists[x.kv[t]] ==> y.lists[x.kv[t]][n] >= 0;
  }

  lemma ExitKeeps(st: State, a: Action)
    requires Inv(st) && Enabled(st, a) && a.Exit? && a.t in st.refs.kv
    ensures Inv(Do(st, a))
  {
    hide Counted, Listed, Local;
    Mine(st, a.t);
    DropOk(st.refs, a.t);
    DropMine(st.refs, st.nodes, a.t);
    forall u | u in st.pc && u != a.t ensures Local(st.pc[u], u, Do(st, a).refs, st.nodes) {
      DropLocal(st.refs, st.nodes, a.t, u, st.pc[u]);
    }
  }

  lemma CommitKeeps(st: State, a: Action)
    requires Inv(st) && Enabled(st, a) && a.Commit?
    ensures Inv(Do(st, a))
  {
    hide Counted, Listed;
    Mine(st, a.t);
    HandOk(st.refs, a.t, a.c);
    var st' := Do(st, a);
    forall u | u in st'.pc ensures Local(st'.pc[u], u, st'.refs, st'.nodes) {
      assert u in st.pc ==> Local(st.pc[u], u, st.refs, st.nodes);
    }
  }

  lemma NewKeeps(st: State, a: Action)
    requires Inv(st) && Enabled(st, a) && a.NewStore?
    ensures Inv(Do(st, a))
  {
    hide Counted, Listed;
    Mine(st, a.t);
    FreshOk(st.refs, a.t, a.s);
    NewListed(st.nodes, a.s);
    var st' := Do(st, a);
    forall u | u in st'.pc ensures Local(st'.pc[u], u, st'.refs, st'.nodes) {
      assert Local(st.pc[u], u, st.refs, st.nodes);
    }
  }

  lemma FreeKeeps(st: State, a: Action)
    requires Inv(st) && Enabled(st, a) && a.FreeStore?
    ensures Inv(Do(st, a))
  {
    hide Counted, Listed;
    var t := a.t;
    Mine(st, t);
    ReleaseOk(st.refs, t);
    SweptIsEmpty(st.nodes, st.refs.freeing[t]);
    var st' := Do(st, a);
    forall u | u in st'.pc ensures Local(st'.pc[u], u, st'.refs, st'.nodes) {
      assert Local(st.pc[u], u, st.refs, st.nodes);
      if u in st.refs.freeing && u != t { SoleFreer(st.refs, t, u); }
    }
  }

  lemma StepKeeps(st: State, a: Action)
    requires Inv(st) && Enabled(st, a)
    ensures Inv(Do(st, a))
  {
    hide Inv, Do, Enabled;
    if a.DoInsert? || a.FreeNode? {
      NodesKeep(st, a);
    } else if a.NewStore? {
      NewKeeps(st, a);
    } else if a.ShareStore? || a.FailLate? {
      CloneKeeps(st, a);
    } else if a.Exit? && a.t in st.refs.kv {
      ExitKeeps(st, a);
    } else if a.Commit? {
      CommitKeeps(st, a);
    } else if a.FreeStore? {
      FreeKeeps(st, a);
    } else {
      PlainKeeps(st, a);
    }
  }

  lemma InitInv()
    ensures Inv(INIT)
  {
  }

  lemma {:induction false} RunKeeps(acts: seq<Action>)
    requires Exec(acts).Some?
    ensures Inv(Exec(acts).value)
  {
    hide Inv, Enabled, Do;
    if acts == [] {
      InitInv();
    } else {
      RunKeeps(acts[..|acts| - 1]);
      StepKeeps(Exec(acts[..|acts| - 1]).value, acts[|acts| - 1]);
    }
  }

  // ----- Every run -----

  /**
   * In every reachable state nothing was used or freed after a free; the store of every task that
   * has not exited is live; its count is at least the number of such tasks, and exactly that number
   * when no clone of theirs failed late and none is under way; and every live node is on a live store.
   */
  lemma StoresOutliveSharers(acts: seq<Action>)
    requires Exec(acts).Some?
    ensures var st := Exec(acts).value; var x := st.refs;
            && !st.crashed
            && (forall t :: t in x.kv ==> x.kv[t] in x.count)
            && (forall s :: s in x.count ==> s in x.lost && x.count[s] >= Cnt(x.kv, s))
            && (forall s :: s in x.count && x.lost[s] == 0 && Cnt(x.pending, s) == 0 ==> x.count[s] == Cnt(x.kv, s))
            && (forall n :: n in st.nodes.home ==> st.nodes.home[n] in x.count)
  {
    hide Cnt;
    RunKeeps(acts);
  }

  /** The exit of t frees the store exactly when t is its last sharer, no clone of it is pending and none was lost. */
  lemma LastExitFrees(acts: seq<Action>, t: nat)
    requires Exec(acts + [Exit(t)]).Some? && Exec(acts).Some? && t in Exec(acts).value.refs.kv
    ensures var x := Exec(acts).value.refs; var s := x.kv[t];
            s in x.lost &&
            (Exec(acts + [Exit(t)]).value.pc[t].Cleaning? <==>
              && (forall u :: u in x.kv && x.kv[u] == s ==> u == t)
              && (forall u :: u in x.pending ==> x.pending[u] != s)
              && x.lost[s] == 0)
  {
    assert (acts + [Exit(t)])[..|acts + [Exit(t)]| - 1] == acts;
    RunKeeps(acts);
    var st := Exec(acts).value;
    assert Enabled(st, Exit(t));
    Mine(st, t);
    DropOk(st.refs, t);
    LastHolder(st.refs, t);
  }

  lemma LastHolder(x: Refs, t: nat)
    requires Counted(x) && t in x.kv && x.kv[t] in x.count
    ensures x.count[x.kv[t]] == 1 <==>
      && (forall u :: u in x.kv && x.kv[u] == x.kv[t] ==> u == t)
      && (forall u :: u in x.pending ==> x.pending[u] != x.kv[t])
      && x.lost[x.kv[t]] == 0
  {
    hide Cnt;
    var s := x.kv[t];
    CntDel(x.kv, t, s);
    CntHeld(x.kv, t);
    if (forall u :: u in x.kv && x.kv[u] == s ==> u == t) && (forall u :: u in x.pending ==> x.pending[u] != s) {
      CntUnheld(x.kv - {t}, s);
      CntUnheld(x.pending, s);
    }
    forall u | u in x.kv && x.kv[u] == s && u != t ensures x.count[s] > 1 { CntTwo(x.kv, t, u); }
    forall u | u in x.pending && x.pending[u] == s ensures x.count[s] > 1 { CntHeld(x.pending, u); }
  }

  /** A live store has a sharer, a child being built, a task freeing it, or a lost count: nothing else leaks. */
  lemma NoOtherLeak(acts: seq<Action>, s: nat)
    requires Exec(acts).Some? && s in Exec(acts).value.refs.count
    ensures var x := Exec(acts).value.refs;
            || (exists t :: t in x.kv && x.kv[t] == s)
            || (exists t :: t in x.pending && x.pending[t] == s)
            || (exists t :: t in x.freeing && x.freeing[t] == s)
            || (s in x.lost && x.lost[s] > 0)
  {
    hide Cnt;
    RunKeeps(acts);
    var x := Exec(acts).value.refs;
    if forall t :: t in x.kv ==> x.kv[t] != s { CntUnheld(x.kv, s); }
    if forall t :: t in x.pending ==> x.pending[t] != s { CntUnheld(x.pending, s); }
    if forall t :: t in x.freeing ==> x.freeing[t] != s { CntUnheld(x.freeing, s); }
  }

  predicate Lost(st: State, s: nat) {
    s in st.refs.count && s in st.refs.lost && st.refs.lost[s] > 0
  }

  lemma LostStep(st: State, a: Action, s: nat)
    requires Inv(st) && Enabled(st, a) && Lost(st, s)
    ensures Lost(Do(st, a), s)
  {
    hide Inv, Counted, Listed;
    Mine(st, a.t);
    if a.FreeStore? { FreedIsNotLost(st.refs, a.t); }
  }

  lemma FreedIsNotLost(x: Refs, t: nat)
    requires Counted(x) && t in x.freeing
    ensures x.freeing[t] in x.count && x.lost[x.freeing[t]] == 0
  {
    hide Cnt;
    CntHeld(x.freeing, t);
  }

  /** One clone that fails after the kv step, and the store is never freed, whatever happens next. */
  lemma {:induction false} LostForever(acts: seq<Action>, more: seq<Action>, s: nat)
    requires Exec(acts).Some? && Lost(Exec(acts).value, s) && Exec(acts + more).Some?
    ensures Lost(Exec(acts + more).value, s)
  {
    hide Inv, Do, Enabled, Lost;
    if more == [] {
      assert acts + more == acts;
    } else {
      var pre := acts + more[..|more| - 1];
      assert (acts + more)[..|acts + more| - 1] == pre;
      LostForever(acts, more[..|more| - 1], s);
      RunKeeps(pre);
      LostStep(Exec(pre).value, more[|more| - 1], s);
    }
  }

  // ----- Freeing ends -----

  lemma Then(acts: seq<Action>, a: Action) returns (acts': seq<Action>)
    requires Exec(acts).Some? && Enabled(Exec(acts).value, a)
    ensures acts' == acts + [a] && Exec(acts') == Some(Do(Exec(acts).value, a)) && Inv(Exec(acts').value)
  {
    hide Do, Enabled, Inv;
    acts' := acts + [a];
    assert acts'[..|acts'| - 1] == acts;
    RunKeeps(acts');
  }

  /** The second run goes on from the first by steps of t alone. */
  ghost predicate OwnSteps(acts: seq<Action>, acts': seq<Action>, t: nat) {
    acts <= acts' && forall j :: |acts| <= j < |acts'| ==> acts'[j].t == t
  }

  /** All other stores and tasks are as they were. */
  ghost predicate OthersSame(st: State, st': State, t: nat, s: nat) {
    && (forall r :: r != s ==> (r in st.nodes.lists <==> r in st'.nodes.lists))
    && (forall r :: r != s && r in st.nodes.lists && r in st'.nodes.lists ==> st'.nodes.lists[r] == st.nodes.lists[r])
    && (forall u :: u != t ==> (u in st.pc <==> u in st'.pc) && (u in st.pc && u in st'.pc ==> st'.pc[u] == st.pc[u]))
    && st'.refs.kv == st.refs.kv && st'.refs.pending == st.refs.pending
  }

  lemma SameTrans(st: State, st1: State, st2: State, t: nat, s: nat)
    requires OthersSame(st, st1, t, s) && OthersSame(st1, st2, t, s)
    ensures OthersSame(st, st2, t, s)
  {
  }

  /** What t has still to free. */
  ghost function BucketsLeft(st: State, t: nat): nat {
    if t in st.pc && st.pc[t].Cleaning? && st.pc[t].i <= KvConcurrent.BUCKETS
    then KvConcurrent.BUCKETS - st.pc[t].i else 0
  }

  ghost function NodesLeft(st: State, t: nat): nat {
    if t in st.refs.freeing && st.refs.freeing[t] in st.nodes.lists then |st.nodes.lists[st.refs.freeing[t]]| else 0
  }

  /** Where a step towards that end leads: closer to it, or there. */
  ghost predicate Closer(st: State, st': State, t: nat) {
    && t in st.refs.freeing && OthersSame(st, st', t, st.refs.freeing[t]) && t in st'.pc
    && (st'.pc[t].Cleaning? ==>
          && t in st'.refs.freeing && st'.refs.freeing[t] == st.refs.freeing[t]
          && (BucketsLeft(st', t) < BucketsLeft(st, t) ||
              (BucketsLeft(st', t) == BucketsLeft(st, t) && NodesLeft(st', t) < NodesLeft(st, t))))
    && (!st'.pc[t].Cleaning? ==>
          st'.pc[t].Dead? && st.refs.freeing[t] !in st'.refs.count && st.refs.freeing[t] !in st'.nodes.lists)
  }

  lemma NodeStep(st: State, t: nat, n: nat)
    requires t in st.pc && Enabled(st, FreeNode(t, n)) && st.pc[t].i <= KvConcurrent.BUCKETS
    ensures !Do(st, FreeNode(t, n)).crashed ==> Closer(st, Do(st, FreeNode(t, n)), t)
  {
    var l := st.nodes.lists[st.refs.freeing[t]];
    assert (l - {n}).Keys == l.Keys - {n};
  }

  /** The next step of a task that frees its store. */
  lemma FreeingStep(st: State, t: nat) returns (a: Action)
    requires Inv(st) && t in st.pc && st.pc[t].Cleaning?
    ensures a.t == t && Enabled(st, a) && (!Do(st, a).crashed ==> Closer(st, Do(st, a), t))
  {
    hide Inv, Counted, Listed, Remove;
    Mine(st, t);
    var i, x, s := st.pc[t].i, st.nodes, st.refs.freeing[t];
    if i == KvConcurrent.BUCKETS {
      a := FreeStore(t);
    } else if NoneAt(x, s, i) {
      a := NextBucket(t);
    } else {
      var n :| n in x.lists[s] && x.lists[s][n] == i;
      a := FreeNode(t, n);
      NodeStep(st, t, n);
    }
  }

  lemma NoStoreNoNodes(st: State, s: nat)
    requires Inv(st) && s !in st.nodes.lists
    ensures forall n :: n in st.nodes.home ==> st.nodes.home[n] != s
  {
    hide Counted;
  }

  /** In every reachable state a task that frees a store can do so by itself until nothing is left of it. */
  lemma {:induction false} FreeingCanFinish(acts: seq<Action>, t: nat) returns (acts': seq<Action>)
    requires Exec(acts).Some? && t in Exec(acts).value.pc && Exec(acts).value.pc[t].Cleaning?
    ensures OwnSteps(acts, acts', t) && Exec(acts').Some? && t in Exec(acts).value.refs.freeing
    ensures var st, st' := Exec(acts).value, Exec(acts').value; var s := st.refs.freeing[t];
      && s !in st'.refs.count && s !in st'.nodes.lists && (forall n :: n in st'.nodes.home ==> st'.nodes.home[n] != s)
      && OthersSame(st, st', t, s) && t in st'.pc && st'.pc[t].Dead?
    decreases BucketsLeft(Exec(acts).value, t), NodesLeft(Exec(acts).value, t)
  {
    hide Exec, Do, Enabled, Inv, OthersSame, BucketsLeft, NodesLeft;
    RunKeeps(acts);
    var st := Exec(acts).value;
    var a := FreeingStep(st, t);
    var next := Then(acts, a);
    var st1 := Exec(next).value;
    NotCrashed(st1);
    var s := st.refs.freeing[t];
    if st1.pc[t].Cleaning? {
      acts' := FreeingCanFinish(next, t);
      SameTrans(st, st1, Exec(acts').value, t, s);
    } else {
      acts' := next;
      NoStoreNoNodes(st1, s);
    }
  }

  lemma NotCrashed(st: State)
    requires Inv(st)
    ensures !st.crashed
  {
  }
}
