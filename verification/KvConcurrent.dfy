/**
 * The key-value store under concurrency: read_kv, write_kv and the store cleanup, split into
 * lock, scan, update or insert, free and unlock steps that interleave in any order.
 * A node is an address; reading or freeing an address that is not live sets `crashed`.
 */
module KvConcurrent {
  import opened Lists

  const BUCKETS: nat := 1024

  /** k & 1023 on a 32-bit key: KvStore.HashIsMask shows that this is the Euclidean remainder. */
  function Hash(k: int): (h: nat)
    ensures h < BUCKETS
  {
    k % BUCKETS
  }

  datatype Node = Node(key: int, value: int)

  datatype Op = Write(k: int, v: int) | Read(k: int) | Cleanup

  /** Where a call stands; `cur` is its list cursor, `h` the bucket it works on. */
  datatype Pc =
    | Locking(op: Op, h: nat)
    | Scanning(op: Op, cur: Option<nat>)
    | Hit(op: Op, node: nat)
    | Miss(op: Op)
    | Cleaning(h: nat, cur: Option<nat>)
    | Unlocking(op: Op, ret: int)
    | Returning(op: Op, ret: int)
    | Returned(op: Op, ret: int)

  datatype State = State(
    head: seq<seq<nat>>,
    heap: map<nat, Node>,
    lock: seq<Option<nat>>,
    pc: map<nat, Pc>,
    crashed: bool)

  datatype Action =
    | Invoke(id: nat, op: Op)
    | Lock(id: nat)
    | Scan(id: nat)
    | Update(id: nat)
    | AllocFail(id: nat)
    | Insert(id: nat, addr: nat)
    | FreeNode(id: nat)
    | Unlock(id: nat)
    | Return(id: nat)

  function Init(): State {
    State(seq(BUCKETS, _ => []), map[], seq(BUCKETS, _ => None), map[], false)
  }

  predicate Shaped(s: State) {
    |s.head| == BUCKETS && |s.lock| == BUCKETS
  }

  function KeyOf(op: Op): int {
    match op
    case Write(k, _) => k
    case Read(k) => k
    case Cleanup => 0
  }

  /** The bucket a call inside its critical section has locked. */
  function BucketOf(pc: Pc): nat {
    if pc.Cleaning? || pc.Locking? then pc.h else Hash(KeyOf(pc.op))
  }

  predicate Enabled(s: State, a: Action)
    requires Shaped(s)
  {
    if a.Invoke? then a.id !in s.pc
    else if a.id !in s.pc then false
    else
      var pc := s.pc[a.id];
      match a
      case Lock(_) => pc.Locking? && pc.h < BUCKETS && s.lock[pc.h] == None
      case Scan(_) => pc.Scanning?
      case Update(_) => pc.Hit? && pc.op.Write?
      case AllocFail(_) => pc.Miss?
      case Insert(_, addr) => pc.Miss? && pc.op.Write? && addr !in s.heap
      case FreeNode(_) => pc.Cleaning? && pc.h < BUCKETS && pc.cur.Some?
      case Unlock(_) => pc.Unlocking? || (pc.Cleaning? && pc.h < BUCKETS && pc.cur.None?)
      case Return(_) => pc.Returning?
  }

  function Go(s: State, id: nat, pc: Pc): State {
    s.(pc := s.pc[id := pc])
  }

  function Do(s: State, a: Action): (s': State)
    requires Shaped(s) && Enabled(s, a)
    ensures Shaped(s')
  {
    match a
    case Invoke(id, op) => Go(s, id, Locking(op, if op.Cleanup? then 0 else Hash(KeyOf(op))))
    case Lock(id) =>
      var pc := s.pc[id];
      var s1 := s.(lock := s.lock[pc.h := Some(id)]);
      Go(s1, id, if pc.op.Cleanup? then Cleaning(pc.h, First(s.head[pc.h]))
                 else Scanning(pc.op, First(s.head[Hash(KeyOf(pc.op))])))
    case Scan(id) =>
      var pc := s.pc[id];
      var list := s.head[Hash(KeyOf(pc.op))];
      if pc.cur.None? then Go(s, id, if pc.op.Read? then Unlocking(pc.op, -1) else Miss(pc.op))
      else if pc.cur.value !in s.heap || pc.cur.value !in list then s.(crashed := true)
      else if s.heap[pc.cur.value].key == KeyOf(pc.op) then
        Go(s, id, if pc.op.Read? then Unlocking(pc.op, s.heap[pc.cur.value].value) else Hit(pc.op, pc.cur.value))
      else Go(s, id, Scanning(pc.op, First(After(list, pc.cur.value))))
    case Update(id) =>
      var pc := s.pc[id];
      if pc.node !in s.heap then s.(crashed := true)
      else Go(s.(heap := s.heap[pc.node := s.heap[pc.node].(value := pc.op.v)]), id, Unlocking(pc.op, 4))
    case AllocFail(id) => Go(s, id, Unlocking(s.pc[id].op, -1))
    case Insert(id, addr) =>
      var op := s.pc[id].op;
      var h := Hash(op.k);
      Go(s.(heap := s.heap[addr := Node(op.k, op.v)], head := s.head[h := [addr] + s.head[h]]), id, Unlocking(op, 4))
    case FreeNode(id) =>
      var pc := s.pc[id];
      var x, list := pc.cur.value, s.head[pc.h];
      if x !in s.heap || x !in list then s.(crashed := true)
      else Go(s.(heap := s.heap - {x}, head := s.head[pc.h := Without(list, x)]), id,
              Cleaning(pc.h, First(After(list, x))))
    case Unlock(id) =>
      var pc := s.pc[id];
      var h := BucketOf(pc);
      var s1 := s.(lock := s.lock[h := None]);
      Go(s1, id, if pc.Unlocking? then Returning(pc.op, pc.ret)
                 else if h + 1 < BUCKETS then Locking(Cleanup, h + 1) else Returning(Cleanup, 0))
    case Return(id) => Go(s, id, Returned(s.pc[id].op, s.pc[id].ret))
  }

  /** A run is its list of actions; it is None when some action was not enabled. */
  function Exec(acts: seq<Action>): (r: Option<State>)
    ensures r.Some? ==> Shaped(r.value)
  {
    if acts == [] then Some(Init())
    else
      var r := Exec(acts[..|acts| - 1]);
      var a := acts[|acts| - 1];
      if r.Some? && Enabled(r.value, a) then Some(Do(r.value, a)) else None
  }

  // ----- The invariant -----

  /** Buckets hold exactly the live nodes, each in the bucket of its key, and keys are distinct. */
  ghost predicate ListsOk(s: State)
    requires Shaped(s)
  {
    && (forall h :: 0 <= h < BUCKETS ==> NoDup(s.head[h]))
    && (forall h, x :: 0 <= h < BUCKETS && x in s.head[h] ==> x in s.heap && Hash(s.heap[x].key) == h)
    && (forall x :: x in s.heap ==> x in s.head[Hash(s.heap[x].key)])
    && (forall x, y :: x in s.heap && y in s.heap && s.heap[x].key == s.heap[y].key ==> x == y)
  }

  ghost predicate InCritical(pc: Pc) {
    pc.Scanning? || pc.Hit? || pc.Miss? || pc.Cleaning? || pc.Unlocking?
  }

  /** No node of bucket `h` outside `rest` has key `k`. */
  ghost predicate OnlyIn(s: State, h: nat, k: int, rest: seq<nat>)
    requires Shaped(s) && h < BUCKETS
  {
    forall x :: x in s.head[h] && x in s.heap && s.heap[x].key == k ==> x in rest
  }

  ghost function RestFrom(list: seq<nat>, cur: Option<nat>): seq<nat>
    requires cur.Some? ==> cur.value in list
  {
    if cur.Some? then [cur.value] + After(list, cur.value) else []
  }

  ghost predicate PcOk(s: State, id: nat)
    requires Shaped(s) && id in s.pc
  {
    var pc := s.pc[id];
    && (InCritical(pc) ==> BucketOf(pc) < BUCKETS && s.lock[BucketOf(pc)] == Some(id))
    && (pc.Locking? ==> pc.h < BUCKETS && (!pc.op.Cleanup? ==> pc.h == Hash(KeyOf(pc.op))))
    && match pc
       case Scanning(op, cur) =>
         var list := s.head[Hash(KeyOf(op))];
         && !op.Cleanup? && (cur.Some? ==> cur.value in list)
         && OnlyIn(s, Hash(KeyOf(op)), KeyOf(op), RestFrom(list, cur))
       case Hit(op, x) => op.Write? && x in s.head[Hash(op.k)] && x in s.heap && s.heap[x].key == op.k
       case Miss(op) => op.Write? && OnlyIn(s, Hash(op.k), op.k, [])
       case Cleaning(h, cur) => cur == First(s.head[h])
       case Unlocking(op, _) => !op.Cleanup?
       case _ => true
  }

  ghost predicate Inv(s: State) {
    && Shaped(s) && !s.crashed && ListsOk(s)
    && (forall id :: id in s.pc ==> PcOk(s, id))
    && (forall h :: 0 <= h < BUCKETS && s.lock[h].Some? ==>
          s.lock[h].value in s.pc && InCritical(s.pc[s.lock[h].value]) && BucketOf(s.pc[s.lock[h].value]) == h)
  }

  // ----- Atomic operations on one map -----

  datatype Effect = Get(k: int, ret: int) | Put(k: int, v: int) | NoMem(k: int) | Del(k: int)

  /** The point at which a step takes effect on the abstract map. */
  function EffectOf(s: State, a: Action): Option<Effect>
    requires Shaped(s) && Enabled(s, a)
  {
    match a
    case Scan(id) =>
      var pc := s.pc[id];
      if !pc.op.Read? then None
      else if pc.cur.None? then Some(Get(pc.op.k, -1))
      else if pc.cur.value in s.heap && s.heap[pc.cur.value].key == pc.op.k
        then Some(Get(pc.op.k, s.heap[pc.cur.value].value)) else None
    case Update(id) => Some(Put(s.pc[id].op.k, s.pc[id].op.v))
    case Insert(id, _) => Some(Put(s.pc[id].op.k, s.pc[id].op.v))
    case AllocFail(id) => if s.pc[id].op.Write? then Some(NoMem(s.pc[id].op.k)) else None
    case FreeNode(id) =>
      var x := s.pc[id].cur.value;
      if x in s.heap then Some(Del(s.heap[x].key)) else None
    case _ => None
  }

  /** What the atomic operation may return on the map `m`. */
  predicate Allowed(m: map<int, int>, e: Effect) {
    match e
    case Get(k, ret) => ret == if k in m then m[k] else -1
    case Put(_, _) => true
    case NoMem(k) => k !in m
    case Del(k) => k in m
  }

  function Apply(m: map<int, int>, e: Effect): map<int, int> {
    match e
    case Put(k, v) => m[k := v]
    case Del(k) => m - {k}
    case _ => m
  }

  ghost predicate Represents(heap: map<nat, Node>, m: map<int, int>) {
    && (forall x :: x in heap ==> heap[x].key in m && m[heap[x].key] == heap[x].value)
    && (forall k :: k in m ==> exists x :: x in heap && heap[x].key == k)
  }

  /** A bucket without the key means a store without the key. */
  lemma AbsentKey(s: State, k: int)
    requires Shaped(s) && ListsOk(s) && OnlyIn(s, Hash(k), k, [])
    ensures forall x :: x in s.heap ==> s.heap[x].key != k
  {
    forall x | x in s.heap ensures s.heap[x].key != k {
      assert x in s.head[Hash(s.heap[x].key)];
    }
  }

  lemma PutRefines(heap: map<nat, Node>, m: map<int, int>, x: nat, n: Node)
    requires Represents(heap, m)
    requires forall y :: y in heap && y != x ==> heap[y].key != n.key
    requires x in heap ==> heap[x].key == n.key
    ensures Represents(heap[x := n], m[n.key := n.value])
  {
    var heap', m' := heap[x := n], m[n.key := n.value];
    forall k | k in m' ensures exists y :: y in heap' && heap'[y].key == k {
      if k == n.key {
        assert heap'[x].key == k;
      } else {
        var y :| y in heap && heap[y].key == k;
        assert heap'[y].key == k;
      }
    }
  }

  lemma DelRefines(heap: map<nat, Node>, m: map<int, int>, x: nat)
    requires Represents(heap, m) && x in heap
    requires forall y :: y in heap && y != x ==> heap[y].key != heap[x].key
    ensures Represents(heap - {x}, m - {heap[x].key})
  {
    var heap', m' := heap - {x}, m - {heap[x].key};
    forall k | k in m' ensures exists y :: y in heap' && heap'[y].key == k {
      var y :| y in heap && heap[y].key == k;
      assert heap'[y].key == k;
    }
  }

  /** Every step is a step of the atomic map at its effect, and invisible to the map otherwise. */
  lemma StepRefines(s: State, a: Action, m: map<int, int>)
    requires Inv(s) && Enabled(s, a) && Represents(s.heap, m)
    ensures match EffectOf(s, a)
            case None => Represents(Do(s, a).heap, m)
            case Some(e) => Allowed(m, e) && Represents(Do(s, a).heap, Apply(m, e))
  {
    assert a.Invoke? || PcOk(s, a.id);
    hide PcOk, Represents;
    match a {
      case Scan(id) => ScanRefines(s, a, m);
      case Update(id) => UpdateRefines(s, a, m);
      case Insert(id, addr) => InsertRefines(s, a, m);
      case AllocFail(id) => InsertRefines(s, a, m);
      case FreeNode(id) => FreeRefines(s, a, m);
      case _ =>
    }
  }

  lemma ScanRefines(s: State, a: Action, m: map<int, int>)
    requires Inv(s) && Enabled(s, a) && Represents(s.heap, m) && a.Scan?
    ensures Do(s, a).heap == s.heap
    ensures EffectOf(s, a).Some? ==> Allowed(m, EffectOf(s, a).value) && Apply(m, EffectOf(s, a).value) == m
  {
    assert PcOk(s, a.id);
    var pc := s.pc[a.id];
    if pc.cur.None? { AbsentKey(s, KeyOf(pc.op)); }
  }

  lemma UpdateRefines(s: State, a: Action, m: map<int, int>)
    requires Inv(s) && Enabled(s, a) && Represents(s.heap, m) && a.Update?
    ensures Represents(Do(s, a).heap, Apply(m, EffectOf(s, a).value))
  {
    assert PcOk(s, a.id);
    var pc := s.pc[a.id];
    PutRefines(s.heap, m, pc.node, Node(pc.op.k, pc.op.v));
  }

  lemma InsertRefines(s: State, a: Action, m: map<int, int>)
    requires Inv(s) && Enabled(s, a) && Represents(s.heap, m) && (a.Insert? || a.AllocFail?)
    ensures EffectOf(s, a).Some? && Allowed(m, EffectOf(s, a).value)
    ensures Represents(Do(s, a).heap, Apply(m, EffectOf(s, a).value))
  {
    assert PcOk(s, a.id);
    var op := s.pc[a.id].op;
    AbsentKey(s, op.k);
    if a.Insert? { PutRefines(s.heap, m, a.addr, Node(op.k, op.v)); }
  }

  lemma FreeRefines(s: State, a: Action, m: map<int, int>)
    requires Inv(s) && Enabled(s, a) && Represents(s.heap, m) && a.FreeNode?
    ensures EffectOf(s, a).Some? && Allowed(m, EffectOf(s, a).value)
    ensures Represents(Do(s, a).heap, Apply(m, EffectOf(s, a).value))
  {
    assert PcOk(s, a.id);
    var x := s.pc[a.id].cur.value;
    assert x in s.head[s.pc[a.id].h];
    DelRefines(s.heap, m, x);
  }

  // ----- Every step keeps the invariant -----

  /** What a call in bucket `h` relies on is not touched by a step in another bucket. */
  lemma PcFramed(s: State, s': State, id: nat)
    requires Shaped(s) && Shaped(s') && ListsOk(s) && id in s.pc && PcOk(s, id)
    requires id in s'.pc && s'.pc[id] == s.pc[id]
    requires InCritical(s.pc[id]) ==>
      var h := BucketOf(s.pc[id]);
      && s'.lock[h] == s.lock[h] && s'.head[h] == s.head[h]
      && forall x :: x in s.head[h] ==> x in s'.heap && s'.heap[x].key == s.heap[x].key
    ensures PcOk(s', id)
  {
  }

  /** Nor by a step that changes no list. */
  lemma PcSame(s: State, s': State, id: nat)
    requires Inv(s) && Shaped(s') && s'.head == s.head && s'.heap == s.heap && id in s.pc
    requires id in s'.pc && s'.pc[id] == s.pc[id]
    requires InCritical(s.pc[id]) && BucketOf(s.pc[id]) < BUCKETS ==>
      s'.lock[BucketOf(s.pc[id])] == s.lock[BucketOf(s.pc[id])]
    ensures PcOk(s', id)
  {
    hide RestFrom, OnlyIn, Hash;
    PcFramed(s, s', id);
  }

  /** Two calls inside their critical sections work on different buckets. */
  lemma Exclusive(s: State, id1: nat, id2: nat)
    requires Inv(s) && id1 in s.pc && id2 in s.pc && id1 != id2
    requires InCritical(s.pc[id1]) && InCritical(s.pc[id2])
    ensures BucketOf(s.pc[id1]) != BucketOf(s.pc[id2])
  {
    assert PcOk(s, id1) && PcOk(s, id2);
  }

  lemma LockHolders(s: State, s': State, id: nat)
    requires Inv(s) && Shaped(s') && s'.lock == s.lock && id in s.pc
    requires s'.pc.Keys == s.pc.Keys && forall i :: i in s.pc && i != id ==> s'.pc[i] == s.pc[i]
    requires InCritical(s.pc[id]) && InCritical(s'.pc[id]) && BucketOf(s'.pc[id]) == BucketOf(s.pc[id])
    ensures forall h :: 0 <= h < BUCKETS && s'.lock[h].Some? ==>
          s'.lock[h].value in s'.pc && InCritical(s'.pc[s'.lock[h].value]) && BucketOf(s'.pc[s'.lock[h].value]) == h
  {
  }

  lemma OtherFramed(s: State, s': State, id: nat, i: nat)
    requires Inv(s) && Shaped(s') && id in s.pc && InCritical(s.pc[id]) && s'.lock == s.lock
    requires s'.pc.Keys == s.pc.Keys && forall i :: i in s.pc && i != id ==> s'.pc[i] == s.pc[i]
    requires forall h :: 0 <= h < BUCKETS && h != BucketOf(s.pc[id]) ==> s'.head[h] == s.head[h]
    requires forall x :: x in s.heap && Hash(s.heap[x].key) != BucketOf(s.pc[id]) ==>
               x in s'.heap && s'.heap[x].key == s.heap[x].key
    requires i in s.pc && i != id
    ensures i in s'.pc && PcOk(s', i)
  {
    hide RestFrom, OnlyIn;
    assert PcOk(s, i);
    if InCritical(s.pc[i]) { Exclusive(s, i, id); }
    PcFramed(s, s', i);
  }

  lemma OthersFramed(s: State, s': State, id: nat)
    requires Inv(s) && Shaped(s') && id in s.pc && InCritical(s.pc[id]) && s'.lock == s.lock
    requires s'.pc.Keys == s.pc.Keys && forall i :: i in s.pc && i != id ==> s'.pc[i] == s.pc[i]
    requires forall h :: 0 <= h < BUCKETS && h != BucketOf(s.pc[id]) ==> s'.head[h] == s.head[h]
    requires forall x :: x in s.heap && Hash(s.heap[x].key) != BucketOf(s.pc[id]) ==>
               x in s'.heap && s'.heap[x].key == s.heap[x].key
    ensures forall i :: i in s'.pc && i != id ==> PcOk(s', i)
  {
    hide Inv, PcOk;
    forall i | i in s'.pc && i != id ensures PcOk(s', i) {
      assert i in s.pc;
      OtherFramed(s, s', id, i);
    }
  }

  /** What the invariant says about one call. */
  lemma PcKnown(s: State, id: nat)
    requires Inv(s) && id in s.pc
    ensures Shaped(s) && ListsOk(s) && !s.crashed && PcOk(s, id)
    ensures InCritical(s.pc[id]) ==> BucketOf(s.pc[id]) < BUCKETS && s.lock[BucketOf(s.pc[id])] == Some(id)
  {
    hide RestFrom, OnlyIn, ListsOk;
  }

  lemma InvokeKeeps(s: State, a: Action)
    requires Inv(s) && Enabled(s, a) && a.Invoke?
    ensures Inv(Do(s, a))
  {
    hide RestFrom, OnlyIn, ListsOk;
    var s' := Do(s, a);
    forall i | i in s'.pc ensures PcOk(s', i) {
      if i != a.id { PcSame(s, s', i); }
    }
    assert ListsOk(s') by { SameLists(s, s'); }
  }

  lemma SameLists(s: State, s': State)
    requires Shaped(s) && Shaped(s') && ListsOk(s) && s'.head == s.head && s'.heap == s.heap
    ensures ListsOk(s')
  {
  }

  /** The locking call alone changes: it starts at the head of its bucket. */
  lemma LockMoves(s: State, a: Action)
    requires Inv(s) && Enabled(s, a) && a.Lock?
    ensures a.id in s.pc
    ensures var s', h := Do(s, a), BucketOf(s.pc[a.id]);
            && h < BUCKETS && s.lock[h] == None && !InCritical(s.pc[a.id])
            && s' == s.(lock := s.lock[h := Some(a.id)], pc := s.pc[a.id := s'.pc[a.id]])
            && InCritical(s'.pc[a.id]) && BucketOf(s'.pc[a.id]) == h && PcOk(s', a.id)
  {
    hide Inv, ListsOk;
    PcKnown(s, a.id);
    var pc := s.pc[a.id];
    if !pc.op.Cleanup? {
      var list := s.head[Hash(KeyOf(pc.op))];
      if list != [] { AfterHead(list); }
      assert RestFrom(list, First(list)) == list;
    }
  }

  lemma LockKeeps(s: State, a: Action)
    requires Inv(s) && Enabled(s, a) && a.Lock?
    ensures Inv(Do(s, a))
  {
    hide Do, Enabled, PcOk, ListsOk, Hash;
    LockMoves(s, a);
    var s', h := Do(s, a), BucketOf(s.pc[a.id]);
    forall i | i in s'.pc && i != a.id ensures PcOk(s', i) {
      PcKnown(s, i);
      PcSame(s, s', i);
    }
    SameLists(s, s');
  }

  lemma ReturnKeeps(s: State, a: Action)
    requires Inv(s) && Enabled(s, a) && a.Return?
    ensures Inv(Do(s, a))
  {
    hide RestFrom, OnlyIn, ListsOk;
    var s' := Do(s, a);
    forall i | i in s'.pc && i != a.id ensures PcOk(s', i) { PcSame(s, s', i); }
    SameLists(s, s');
  }

  /** The unlocking call leaves its critical section and gives exactly its own lock back. */
  lemma UnlockMoves(s: State, a: Action)
    requires Inv(s) && Enabled(s, a) && a.Unlock?
    ensures a.id in s.pc
    ensures var s', h := Do(s, a), BucketOf(s.pc[a.id]);
            && h < BUCKETS && s.lock[h] == Some(a.id) && InCritical(s.pc[a.id])
            && s' == s.(lock := s.lock[h := None], pc := s.pc[a.id := s'.pc[a.id]])
            && !InCritical(s'.pc[a.id]) && PcOk(s', a.id)
  {
    hide Inv, ListsOk, RestFrom, OnlyIn;
    PcKnown(s, a.id);
  }

  lemma UnlockKeeps(s: State, a: Action)
    requires Inv(s) && Enabled(s, a) && a.Unlock?
    ensures Inv(Do(s, a))
  {
    hide Do, Enabled, PcOk, ListsOk, Hash;
    UnlockMoves(s, a);
    var s' := Do(s, a);
    forall i | i in s'.pc && i != a.id ensures PcOk(s', i) {
      PcKnown(s, i);
      PcSame(s, s', i);
    }
    SameLists(s, s');
  }

  /** Moving the cursor past a node with another key loses no node with the key. */
  lemma ScanMoves(s: State, a: Action)
    requires Inv(s) && Enabled(s, a) && (a.Scan? || a.AllocFail?)
    ensures var s' := Do(s, a);
            && s' == s.(pc := s'.pc) && s'.pc == s.pc[a.id := s'.pc[a.id]]
            && InCritical(s.pc[a.id]) && InCritical(s'.pc[a.id]) && BucketOf(s'.pc[a.id]) == BucketOf(s.pc[a.id])
            && PcOk(s', a.id)
  {
    assert PcOk(s, a.id);
    var pc := s.pc[a.id];
    if a.Scan? && pc.cur.Some? {
      var list := s.head[Hash(KeyOf(pc.op))];
      if s.heap[pc.cur.value].key != KeyOf(pc.op) {
        var c' := First(After(list, pc.cur.value));
        if c'.Some? { AfterNext(list, pc.cur.value); }
        assert RestFrom(list, c') == After(list, pc.cur.value);
      }
    }
  }

  lemma ScanKeeps(s: State, a: Action)
    requires Inv(s) && Enabled(s, a) && (a.Scan? || a.AllocFail?)
    ensures Inv(Do(s, a))
  {
    hide Do, Enabled, PcOk;
    ScanMoves(s, a);
    OthersFramed(s, Do(s, a), a.id);
    LockHolders(s, Do(s, a), a.id);
  }

  /** The written node keeps its key, so the buckets stay as they are. */
  lemma UpdateMoves(s: State, a: Action)
    requires Inv(s) && Enabled(s, a) && a.Update?
    ensures a.id in s.pc
    ensures var s' := Do(s, a);
            && s' == s.(heap := s'.heap, pc := s.pc[a.id := s'.pc[a.id]]) && ListsOk(s')
            && (forall x :: x in s.heap ==> x in s'.heap && s'.heap[x].key == s.heap[x].key)
            && InCritical(s.pc[a.id]) && InCritical(s'.pc[a.id]) && BucketOf(s'.pc[a.id]) == BucketOf(s.pc[a.id])
            && PcOk(s', a.id)
  {
    hide Inv, RestFrom, OnlyIn, Hash;
    PcKnown(s, a.id);
    var s' := Do(s, a);
    assert forall x :: x in s.heap <==> x in s'.heap;
    assert forall x :: x in s.heap ==> s'.heap[x].key == s.heap[x].key;
  }

  lemma UpdateKeeps(s: State, a: Action)
    requires Inv(s) && Enabled(s, a) && a.Update?
    ensures Inv(Do(s, a))
  {
    hide Do, Enabled, PcOk, ListsOk, Hash;
    UpdateMoves(s, a);
    OthersFramed(s, Do(s, a), a.id);
    LockHolders(s, Do(s, a), a.id);
  }

  /** The new node goes to the head of the bucket of its key, where no node had that key. */
  lemma InsertMoves(s: State, a: Action)
    requires Inv(s) && Enabled(s, a) && a.Insert?
    ensures a.id in s.pc && s.pc[a.id].Miss? && s.pc[a.id].op.Write?
    ensures var s', h := Do(s, a), BucketOf(s.pc[a.id]);
            && h < BUCKETS && a.addr !in s.heap && Hash(s.pc[a.id].op.k) == h && !s'.crashed
            && s'.heap == s.heap[a.addr := Node(s.pc[a.id].op.k, s.pc[a.id].op.v)]
            && s'.head == s.head[h := [a.addr] + s.head[h]] && s'.lock == s.lock
            && s'.pc == s.pc[a.id := s'.pc[a.id]] && (forall x :: x in s.heap ==> s.heap[x].key != s.pc[a.id].op.k)
            && InCritical(s.pc[a.id]) && InCritical(s'.pc[a.id]) && BucketOf(s'.pc[a.id]) == h && PcOk(s', a.id)
  {
    hide Inv, RestFrom, ListsOk;
    PcKnown(s, a.id);
    AbsentKey(s, s.pc[a.id].op.k);
  }

  lemma InsertedLists(s: State, h: nat, x: nat, n: Node)
    requires Shaped(s) && ListsOk(s) && h < BUCKETS && x !in s.heap && Hash(n.key) == h
    requires forall y :: y in s.heap ==> s.heap[y].key != n.key
    ensures ListsOk(s.(heap := s.heap[x := n], head := s.head[h := [x] + s.head[h]]))
  {
    hide Hash;
    assert x !in s.head[h];
    NoDupConcat([x], s.head[h]);
  }

  lemma InsertKeeps(s: State, a: Action)
    requires Inv(s) && Enabled(s, a) && a.Insert?
    ensures Inv(Do(s, a))
  {
    hide Do, Enabled, PcOk, ListsOk, Hash;
    InsertMoves(s, a);
    var s', h, op := Do(s, a), BucketOf(s.pc[a.id]), s.pc[a.id].op;
    InsertedLists(s, h, a.addr, Node(op.k, op.v));
    SameLists(s.(heap := s'.heap, head := s'.head), s');
    OthersFramed(s, s', a.id);
    LockHolders(s, s', a.id);
  }

  lemma WithoutIs(s: seq<nat>, x: nat)
    requires NoDup(s) && x in s
    ensures NoDup(Without(s, x))
    ensures forall y :: y in Without(s, x) <==> y in s && y != x
  {
    var i := IndexOf(s, x);
    var before, behind := s[..i], s[i + 1..];
    assert s == before + [x] + behind && Without(s, x) == before + behind;
    assert x !in before;
    assert x !in behind by { assert forall k :: 0 <= k < |behind| ==> behind[k] == s[i + 1 + k]; }
  }

  lemma FreedLists(s: State, h: nat, x: nat)
    requires Shaped(s) && ListsOk(s) && h < BUCKETS && x in s.head[h]
    ensures ListsOk(s.(heap := s.heap - {x}, head := s.head[h := Without(s.head[h], x)]))
  {
    var list' := Without(s.head[h], x);
    WithoutIs(s.head[h], x);
    var s' := s.(heap := s.heap - {x}, head := s.head[h := list']);
    forall g, y | 0 <= g < BUCKETS && y in s'.head[g] ensures y in s'.heap && Hash(s'.heap[y].key) == g {
      if g == h {
        assert y in list' && y != x;
      } else {
        assert y in s.head[g] && Hash(s.heap[y].key) == g && Hash(s.heap[x].key) == h;
      }
    }
  }

  lemma FreeMoves(s: State, a: Action)
    requires Inv(s) && Enabled(s, a) && a.FreeNode?
    ensures a.id in s.pc && s.pc[a.id].Cleaning?
    ensures var s', h := Do(s, a), s.pc[a.id].h;
            && h < BUCKETS && InCritical(s.pc[a.id]) && s.head[h] != [] && s.pc[a.id] == Cleaning(h, Some(s.head[h][0]))
            && s'.heap == s.heap - {s.head[h][0]} && s'.head == s.head[h := s.head[h][1..]]
            && s'.lock == s.lock && !s'.crashed
            && s'.pc == s.pc[a.id := Cleaning(h, First(s.head[h][1..]))]
            && Without(s.head[h], s.head[h][0]) == s.head[h][1..]
  {
    assert PcOk(s, a.id);
    var list := s.head[s.pc[a.id].h];
    AfterHead(list);
    assert Without(list, list[0]) == list[1..];
  }

  lemma FreeKeeps(s: State, a: Action)
    requires Inv(s) && Enabled(s, a) && a.FreeNode?
    ensures Inv(Do(s, a))
  {
    hide Do, Enabled, Without, PcOk, ListsOk, Hash;
    FreeMoves(s, a);
    PcKnown(s, a.id);
    var h, s' := s.pc[a.id].h, Do(s, a);
    FreedLists(s, h, s.head[h][0]);
    SameLists(s.(heap := s'.heap, head := s'.head), s');
    assert PcOk(s', a.id) by { CleaningOk(s', a.id, h); }
    FreedElsewhere(s, h, s.head[h][0]);
    OthersFramed(s, s', a.id);
    LockHolders(s, s', a.id);
  }

  lemma CleaningOk(s: State, id: nat, h: nat)
    requires Shaped(s) && id in s.pc && h < BUCKETS && s.lock[h] == Some(id)
    requires s.pc[id] == Cleaning(h, First(s.head[h]))
    ensures PcOk(s, id)
  {
  }

  lemma FreedElsewhere(s: State, h: nat, x: nat)
    requires Shaped(s) && ListsOk(s) && h < BUCKETS && x in s.head[h]
    ensures x in s.heap && Hash(s.heap[x].key) == h
  {
  }

  lemma StepKeeps(s: State, a: Action)
    requires Inv(s) && Enabled(s, a)
    ensures Inv(Do(s, a))
  {
    match a {
      case Invoke(_, _) => InvokeKeeps(s, a);
      case Lock(_) => LockKeeps(s, a);
      case Return(_) => ReturnKeeps(s, a);
      case Unlock(_) => UnlockKeeps(s, a);
      case Scan(_) => ScanKeeps(s, a);
      case AllocFail(_) => ScanKeeps(s, a);
      case Update(_) => UpdateKeeps(s, a);
      case Insert(_, _) => InsertKeeps(s, a);
      case FreeNode(_) => FreeKeeps(s, a);
    }
  }

  // ----- Every run -----

  lemma {:induction false} Prefix(acts: seq<Action>, i: nat)
    requires Exec(acts).Some? && i <= |acts|
    ensures Exec(acts[..i]).Some?
    decreases |acts|
  {
    if i < |acts| {
      Prefix(acts[..|acts| - 1], i);
      assert acts[..|acts| - 1][..i] == acts[..i];
    } else {
      assert acts[..i] == acts;
    }
  }

  /** The state in which the `i`-th action of a run happens. */
  ghost function StateAt(acts: seq<Action>, i: nat): (s: State)
    requires Exec(acts).Some? && i <= |acts|
    ensures Shaped(s) && (i < |acts| ==> Enabled(s, acts[i]))
  {
    Prefix(acts, i);
    if i < |acts| then
      Prefix(acts, i + 1);
      assert acts[..i + 1][..i] == acts[..i];
      Exec(acts[..i]).value
    else Exec(acts[..i]).value
  }

  lemma StateAfter(acts: seq<Action>, i: nat)
    requires Exec(acts).Some? && i < |acts|
    ensures StateAt(acts, i + 1) == Do(StateAt(acts, i), acts[i])
  {
    Prefix(acts, i + 1);
    assert acts[..i + 1][..i] == acts[..i];
  }

  ghost function EffectAt(acts: seq<Action>, i: nat): Option<Effect>
    requires Exec(acts).Some? && i < |acts|
  {
    EffectOf(StateAt(acts, i), acts[i])
  }

  /** The map that the effects of the first `i` actions make, applied atomically and in order. */
  ghost function MapAt(acts: seq<Action>, i: nat): map<int, int>
    requires Exec(acts).Some? && i <= |acts|
  {
    if i == 0 then map[]
    else
      match EffectAt(acts, i - 1)
      case None => MapAt(acts, i - 1)
      case Some(e) => Apply(MapAt(acts, i - 1), e)
  }

  /**
   * In every interleaving the invariant holds, nothing freed is ever touched, the store holds
   * exactly the map that the effects so far make, and the next effect is what an atomic map
   * would have answered.
   */
  lemma {:induction false} RunRefines(acts: seq<Action>, i: nat)
    requires Exec(acts).Some? && i <= |acts|
    ensures Inv(StateAt(acts, i)) && Represents(StateAt(acts, i).heap, MapAt(acts, i))
    ensures i < |acts| && EffectAt(acts, i).Some? ==> Allowed(MapAt(acts, i), EffectAt(acts, i).value)
  {
    if i == 0 {
      assert Inv(Init());
    } else {
      RunRefines(acts, i - 1);
      StateAfter(acts, i - 1);
      StepKeeps(StateAt(acts, i - 1), acts[i - 1]);
      StepRefines(StateAt(acts, i - 1), acts[i - 1], MapAt(acts, i - 1));
    }
    if i < |acts| { StepRefines(StateAt(acts, i), acts[i], MapAt(acts, i)); }
  }

  /** The answer the effect gives is the value the call returns. */
  ghost predicate Answers(op: Op, e: Effect, ret: int) {
    match op
    case Read(k) => e == Get(k, ret)
    case Write(k, v) => (e == Put(k, v) && ret == 4) || (e == NoMem(k) && ret == -1)
    case Cleanup => false
  }

  /** Action `p` is where call `id` takes effect. */
  ghost predicate TakesEffect(acts: seq<Action>, id: nat, p: nat)
    requires Exec(acts).Some?
  {
    p < |acts| && acts[p].id == id && EffectAt(acts, p).Some?
  }

  ghost predicate Before(pc: Pc) {
    pc.Locking? || pc.Scanning? || pc.Hit? || pc.Miss?
  }

  /** How far call `id` has come after `n` actions: invoked at `i`, and in effect at `p` unless still before. */
  ghost predicate Progress(acts: seq<Action>, n: nat, id: nat, op: Op, i: nat, p: nat)
    requires Exec(acts).Some? && n <= |acts|
  {
    var s := StateAt(acts, n);
    && id in s.pc && i < n && acts[i] == Invoke(id, op)
    && (forall j :: 0 <= j < n && acts[j].Invoke? && acts[j].id == id ==> j == i)
    && !s.pc[id].Cleaning? && s.pc[id].op == op
    && if Before(s.pc[id]) then forall q :: 0 <= q < n ==> !TakesEffect(acts, id, q)
       else && i < p < n && TakesEffect(acts, id, p)
            && Answers(op, EffectAt(acts, p).value, s.pc[id].ret)
            && forall q :: 0 <= q < n && TakesEffect(acts, id, q) ==> q == p
  }

  /** One step of a read or write: before its effect, at it, or behind it. */
  lemma StepOfCall(s: State, a: Action)
    requires Inv(s) && Enabled(s, a) && !a.Invoke?
    requires !s.pc[a.id].Cleaning? && !s.pc[a.id].op.Cleanup?
    ensures var pc, pc', e := s.pc[a.id], Do(s, a).pc[a.id], EffectOf(s, a);
      && !pc'.Cleaning? && pc'.op == pc.op
      && (Before(pc) && Before(pc') ==> e.None?)
      && (Before(pc) && !Before(pc') ==> e.Some? && Answers(pc.op, e.value, pc'.ret))
      && (!Before(pc) ==> !Before(pc') && e.None? && pc'.ret == pc.ret)
  {
    assert PcOk(s, a.id);
  }

  lemma StepOfOther(s: State, a: Action, id: nat)
    requires Shaped(s) && Enabled(s, a) && id != a.id
    ensures (id in Do(s, a).pc <==> id in s.pc) && (id in s.pc ==> Do(s, a).pc[id] == s.pc[id])
  {
  }

  lemma CallsOnlyGrow(s: State, a: Action)
    requires Shaped(s) && Enabled(s, a)
    ensures Do(s, a).pc.Keys == s.pc.Keys + {a.id}
  {
  }

  lemma {:induction false} NotInvokedYet(acts: seq<Action>, n: nat, id: nat)
    requires Exec(acts).Some? && n <= |acts| && id !in StateAt(acts, n).pc
    ensures forall j :: 0 <= j < n ==> acts[j].id != id
  {
    hide Do, Enabled, Exec, StateAt;
    if n > 0 {
      StateAfter(acts, n - 1);
      CallsOnlyGrow(StateAt(acts, n - 1), acts[n - 1]);
      NotInvokedYet(acts, n - 1, id);
    }
  }

  lemma {:induction false} HasProgress(acts: seq<Action>, n: nat, id: nat)
    returns (op: Op, i: nat, p: nat)
    requires Exec(acts).Some? && n <= |acts| && id in StateAt(acts, n).pc
    requires !StateAt(acts, n).pc[id].Cleaning? && !StateAt(acts, n).pc[id].op.Cleanup?
    ensures Progress(acts, n, id, op, i, p)
  {
    hide Do, Enabled, EffectOf, Inv, Represents, Exec;
    assert n > 0 by { NothingAtStart(acts); }
    RunRefines(acts, n - 1);
    StateAfter(acts, n - 1);
    var s, a := StateAt(acts, n - 1), acts[n - 1];
    if a.Invoke? && a.id == id {
      InvokeStarts(s, a);
      NotInvokedYet(acts, n - 1, id);
      op, i, p := a.op, n - 1, 0;
    } else if a.id == id {
      CleanupStays(s, a);
      StepOfCall(s, a);
      op, i, p := HasProgress(acts, n - 1, id);
      if Before(s.pc[id]) && !Before(StateAt(acts, n).pc[id]) { p := n - 1; }
    } else {
      StepOfOther(s, a, id);
      op, i, p := HasProgress(acts, n - 1, id);
    }
  }

  lemma NothingAtStart(acts: seq<Action>)
    requires Exec(acts).Some?
    ensures StateAt(acts, 0).pc == map[]
  {
  }

  lemma InvokeStarts(s: State, a: Action)
    requires Shaped(s) && Enabled(s, a) && a.Invoke?
    ensures a.id !in s.pc && a.id in Do(s, a).pc && Before(Do(s, a).pc[a.id]) && EffectOf(s, a).None?
    ensures !Do(s, a).pc[a.id].Cleaning? && Do(s, a).pc[a.id].op == a.op
  {
  }

  /** A cleanup stays a cleanup. */
  lemma CleanupStays(s: State, a: Action)
    requires Inv(s) && Enabled(s, a) && !a.Invoke?
    ensures a.id in s.pc
    ensures s.pc[a.id].Cleaning? || s.pc[a.id].op.Cleanup? ==>
              Do(s, a).pc[a.id].Cleaning? || Do(s, a).pc[a.id].op.Cleanup?
  {
    assert PcOk(s, a.id);
  }

  /** The value a returning call hands back. */
  ghost function Result(acts: seq<Action>, r: nat): int
    requires Exec(acts).Some? && r < |acts| && acts[r].Return?
  {
    StateAt(acts, r).pc[acts[r].id].ret
  }

  /**
   * Linearizability.  Every read or write that returned was invoked once and took effect
   * exactly once, at an action `p` between the two, where the atomic map built from all
   * earlier effects gives the very answer the call returned.
   */
  lemma Linearizable(acts: seq<Action>, r: nat) returns (op: Op, i: nat, p: nat)
    requires Exec(acts).Some? && r < |acts| && acts[r].Return? && !StateAt(acts, r).pc[acts[r].id].op.Cleanup?
    ensures i < p < r && acts[i] == Invoke(acts[r].id, op)
    ensures TakesEffect(acts, acts[r].id, p)
    ensures Answers(op, EffectAt(acts, p).value, Result(acts, r))
    ensures Allowed(MapAt(acts, p), EffectAt(acts, p).value)
    ensures MapAt(acts, p + 1) == Apply(MapAt(acts, p), EffectAt(acts, p).value)
    ensures forall q: nat :: q < r && TakesEffect(acts, acts[r].id, q) ==> q == p
  {
    op, i, p := HasProgress(acts, r, acts[r].id);
    RunRefines(acts, p);
  }

  /** Calls that do not overlap take effect in the order in which they happened. */
  lemma RealTimeOrder(acts: seq<Action>, r1: nat, r2: nat, p1: nat, p2: nat)
    requires Exec(acts).Some? && r1 < |acts| && r2 < |acts| && acts[r1].Return? && acts[r2].Return?
    requires !StateAt(acts, r1).pc[acts[r1].id].op.Cleanup? && !StateAt(acts, r2).pc[acts[r2].id].op.Cleanup?
    requires forall i :: 0 <= i <= r1 ==> !(acts[i].Invoke? && acts[i].id == acts[r2].id)
    requires p1 < r1 && TakesEffect(acts, acts[r1].id, p1) && p2 < r2 && TakesEffect(acts, acts[r2].id, p2)
    ensures p1 < p2
  {
    var _, _, q1 := Linearizable(acts, r1);
    var _, i2, q2 := Linearizable(acts, r2);
    assert r1 < i2;
  }

  // ----- Cleanup -----

  /** What cleanup `c` frees from the `i`-th action up to the `n`-th. */
  ghost function FreedBy(acts: seq<Action>, c: nat, i: nat, n: nat): seq<nat>
    requires Exec(acts).Some? && i <= n <= |acts|
    decreases n
  {
    if n == i then []
    else if acts[n - 1] == FreeNode(c) then
      FreedBy(acts, c, i, n - 1) + [StateAt(acts, n - 1).pc[c].cur.value]
    else FreedBy(acts, c, i, n - 1)
  }

  /** No other call can change the bucket a cleanup has locked. */
  lemma LockedBucketStays(s: State, a: Action, c: nat)
    requires Inv(s) && Enabled(s, a) && a.id != c && c in s.pc && s.pc[c].Cleaning?
    ensures c in Do(s, a).pc && Do(s, a).pc[c] == s.pc[c] && s.pc[c].h < BUCKETS
    ensures Do(s, a).head[s.pc[c].h] == s.head[s.pc[c].h]
  {
    assert PcOk(s, c) && (a.Invoke? || PcOk(s, a.id));
    if !a.Invoke? && InCritical(s.pc[a.id]) { Exclusive(s, a.id, c); }
  }

  lemma CleanupStep(s: State, a: Action, c: nat)
    requires Inv(s) && Enabled(s, a) && a != Unlock(c) && c in s.pc && s.pc[c].Cleaning?
    ensures var h, s' := s.pc[c].h, Do(s, a);
      && h < BUCKETS && c in s'.pc && s'.pc[c] == Cleaning(h, First(s'.head[h]))
      && (a == FreeNode(c) ==> s.pc[c].cur.Some? && s.head[h] == [s.pc[c].cur.value] + s'.head[h])
      && (a != FreeNode(c) ==> s.head[h] == s'.head[h])
  {
    assert PcOk(s, c);
    if a.id != c {
      LockedBucketStays(s, a, c);
    } else {
      FreeMoves(s, a);
    }
  }

  lemma CleanupLocks(s: State, a: Action)
    requires Inv(s) && Enabled(s, a) && a.Lock? && s.pc[a.id].op.Cleanup?
    ensures var h, s' := s.pc[a.id].h, Do(s, a);
      h < BUCKETS && s'.head == s.head && a.id in s'.pc && s'.pc[a.id] == Cleaning(h, First(s.head[h]))
  {
  }

  /**
   * While cleanup `c` holds a bucket, the nodes present when it took the lock are those it
   * has freed, in order, followed by those still linked; so at its unlock it has freed each
   * of them exactly once, whatever readers and writers do meanwhile.
   */
  lemma {:induction false} CleanupFreesOnce(acts: seq<Action>, c: nat, i: nat, n: nat)
    requires Exec(acts).Some? && i < n <= |acts| && acts[i] == Lock(c) && StateAt(acts, i).pc[c].op.Cleanup?
    requires forall j :: i < j < n ==> acts[j] != Unlock(c)
    ensures var h := StateAt(acts, i).pc[c].h;
      && h < BUCKETS && c in StateAt(acts, n).pc
      && StateAt(acts, n).pc[c] == Cleaning(h, First(StateAt(acts, n).head[h]))
      && StateAt(acts, i).head[h] == FreedBy(acts, c, i, n) + StateAt(acts, n).head[h]
    decreases n
  {
    hide Do, Exec, StateAt, Inv, Represents;
    RunRefines(acts, n - 1);
    StateAfter(acts, n - 1);
    if n == i + 1 {
      CleanupLocks(StateAt(acts, i), acts[i]);
      assert FreedBy(acts, c, i, n - 1) == [];
    } else {
      CleanupFreesOnce(acts, c, i, n - 1);
      CleanupStep(StateAt(acts, n - 1), acts[n - 1], c);
    }
  }

  /** Buckets a cleanup has passed; BUCKETS once it is through. */
  ghost function Passed(pc: Pc): nat {
    if pc.Locking? || pc.Cleaning? then pc.h else BUCKETS
  }

  ghost predicate EmptyBelow(s: State, n: nat)
    requires Shaped(s)
  {
    forall h :: 0 <= h < n && h < BUCKETS ==> s.head[h] == []
  }

  lemma OnlyShrinks(s: State, a: Action)
    requires Inv(s) && Enabled(s, a) && !a.Insert?
    ensures forall h :: 0 <= h < BUCKETS && s.head[h] == [] ==> Do(s, a).head[h] == []
  {
    assert a.Invoke? || PcOk(s, a.id);
  }

  /** A step of a cleanup moves on by the bucket it has emptied if it is the unlock of it, and else not at all. */
  lemma CleanupMoves(s: State, a: Action)
    requires Inv(s) && Enabled(s, a) && !a.Invoke? && (s.pc[a.id].Cleaning? || s.pc[a.id].op.Cleanup?)
    ensures var pc, pc' := s.pc[a.id], Do(s, a).pc[a.id];
            && (pc'.Cleaning? || pc'.op.Cleanup?)
            && (if a.Unlock? then Passed(pc) < BUCKETS && Passed(pc') == Passed(pc) + 1 && s.head[Passed(pc)] == []
                else Passed(pc') == Passed(pc))
  {
    assert PcOk(s, a.id);
  }

  lemma CleanupPasses(s: State, a: Action, c: nat)
    requires Inv(s) && Enabled(s, a) && !a.Insert?
    requires c in s.pc && (s.pc[c].Cleaning? || s.pc[c].op.Cleanup?) && EmptyBelow(s, Passed(s.pc[c]))
    ensures var s' := Do(s, a);
            c in s'.pc && (s'.pc[c].Cleaning? || s'.pc[c].op.Cleanup?) && EmptyBelow(s', Passed(s'.pc[c]))
  {
    OnlyShrinks(s, a);
    if a.id != c {
      StepOfOther(s, a, c);
    } else {
      assert !a.Invoke?;
      CallsOnlyGrow(s, a);
      CleanupMoves(s, a);
    }
    hide Do, Inv;
  }

  /** With no insert after its start, a cleanup leaves every bucket it has passed empty. */
  lemma {:induction false} CleanupEmpties(acts: seq<Action>, c: nat, i: nat, n: nat)
    requires Exec(acts).Some? && i < n <= |acts| && acts[i] == Invoke(c, Cleanup)
    requires forall j :: i < j < n ==> !acts[j].Insert?
    ensures var s := StateAt(acts, n);
            && c in s.pc && (s.pc[c].Cleaning? || s.pc[c].op.Cleanup?)
            && EmptyBelow(s, Passed(s.pc[c]))
    decreases n
  {
    hide Do, Exec, StateAt, Inv, Represents;
    RunRefines(acts, n - 1);
    StateAfter(acts, n - 1);
    if n == i + 1 {
      CleanupStarts(StateAt(acts, i), acts[i]);
    } else {
      CleanupEmpties(acts, c, i, n - 1);
      CleanupPasses(StateAt(acts, n - 1), acts[n - 1], c);
    }
  }

  lemma CleanupStarts(s: State, a: Action)
    requires Shaped(s) && Enabled(s, a) && a.Invoke? && a.op.Cleanup?
    ensures a.id in Do(s, a).pc && Do(s, a).pc[a.id] == Locking(Cleanup, 0)
  {
  }

  lemma EmptyStore(s: State)
    requires Shaped(s) && ListsOk(s) && EmptyBelow(s, BUCKETS)
    ensures s.heap == map[]
  {
    if x :| x in s.heap { assert x in s.head[Hash(s.heap[x].key)]; }
  }

  lemma EmptyMap(heap: map<nat, Node>, m: map<int, int>)
    requires heap == map[] && Represents(heap, m)
    ensures m == map[]
  {
    assert forall k :: k !in m;
    assert m == map[];
  }

  /** A finished cleanup with no insert since its start leaves the empty map. */
  lemma CleanupEndsEmpty(acts: seq<Action>, c: nat, i: nat)
    requires Exec(acts).Some? && i < |acts| && acts[i] == Invoke(c, Cleanup)
    requires forall j :: i < j < |acts| ==> !acts[j].Insert?
    requires var s := StateAt(acts, |acts|); c in s.pc && s.pc[c].Returned?
    ensures StateAt(acts, |acts|).heap == map[] && MapAt(acts, |acts|) == map[]
  {
    hide StateAt, Exec, MapAt, PcOk;
    CleanupEmpties(acts, c, i, |acts|);
    RunRefines(acts, |acts|);
    EmptyStore(StateAt(acts, |acts|));
    EmptyMap(StateAt(acts, |acts|).heap, MapAt(acts, |acts|));
  }

  // ----- Every call can return -----

  lemma Then(acts: seq<Action>, a: Action) returns (acts': seq<Action>)
    requires Exec(acts).Some? && Enabled(Exec(acts).value, a)
    ensures acts' == acts + [a] && Exec(acts') == Some(Do(Exec(acts).value, a))
  {
    hide Do, Enabled;
    acts' := acts + [a];
    assert acts'[..|acts'| - 1] == acts;
  }

  lemma Reachable(acts: seq<Action>)
    requires Exec(acts).Some?
    ensures Inv(Exec(acts).value)
  {
    hide Inv;
    RunRefines(acts, |acts|);
    assert acts[..|acts|] == acts;
  }

  /** The step by which a call in its critical section goes on; a write that missed gives up. */
  function NextStep(id: nat, pc: Pc): Action {
    match pc
    case Scanning(_, _) => Scan(id)
    case Hit(_, _) => Update(id)
    case Miss(_) => AllocFail(id)
    case Cleaning(_, cur) => if cur.Some? then FreeNode(id) else Unlock(id)
    case _ => Unlock(id)
  }

  /** How many steps it has at most before its unlock. */
  ghost function Work(s: State, pc: Pc): nat
    requires Shaped(s)
  {
    match pc
    case Scanning(op, cur) =>
      var list := s.head[Hash(KeyOf(op))];
      3 + if cur.Some? && cur.value in list then 1 + |After(list, cur.value)| else 0
    case Hit(_, _) => 2
    case Miss(_) => 2
    case Cleaning(h, _) => if h < BUCKETS then 1 + |s.head[h]| else 0
    case _ => 0
  }

  /** The call is still in its critical section, with less to do, and nobody else has moved. */
  ghost predicate GoesOn(s: State, s': State, id: nat)
    requires id in s.pc
  {
    && Shaped(s) && Shaped(s') && s'.lock == s.lock && id in s'.pc && s'.pc == s.pc[id := s'.pc[id]]
    && InCritical(s'.pc[id]) && BucketOf(s'.pc[id]) == BucketOf(s.pc[id]) && Work(s', s'.pc[id]) < Work(s, s.pc[id])
    && (if s.pc[id].Cleaning? then s'.pc[id].Cleaning? else !s'.pc[id].Cleaning? && s'.pc[id].op == s.pc[id].op)
  }

  lemma ScanGoesOn(s: State, id: nat)
    requires Inv(s) && id in s.pc && (s.pc[id].Scanning? || s.pc[id].Miss?)
    ensures var a := NextStep(id, s.pc[id]); Enabled(s, a) && GoesOn(s, Do(s, a), id)
  {
    hide Inv, ListsOk, OnlyIn;
    PcKnown(s, id);
    assert Enabled(s, NextStep(id, s.pc[id]));
    ScanMoves(s, NextStep(id, s.pc[id]));
    var pc := s.pc[id];
    if pc.Scanning? && pc.cur.Some? {
      ListKnown(s, Hash(KeyOf(pc.op)));
      var list := s.head[Hash(KeyOf(pc.op))];
      if After(list, pc.cur.value) != [] { AfterNext(list, pc.cur.value); }
    }
  }

  lemma ListKnown(s: State, h: nat)
    requires Inv(s) && h < BUCKETS
    ensures Shaped(s) && NoDup(s.head[h]) && forall x :: x in s.head[h] ==> x in s.heap
  {
    hide PcOk;
  }

  lemma HitGoesOn(s: State, id: nat)
    requires Inv(s) && id in s.pc && s.pc[id].Hit?
    ensures var a := NextStep(id, s.pc[id]); Enabled(s, a) && GoesOn(s, Do(s, a), id)
  {
    hide Inv, ListsOk, OnlyIn;
    PcKnown(s, id);
  }

  lemma FreeGoesOn(s: State, id: nat)
    requires Inv(s) && id in s.pc && s.pc[id].Cleaning? && s.pc[id].cur.Some?
    ensures var a := NextStep(id, s.pc[id]); Enabled(s, a) && GoesOn(s, Do(s, a), id)
  {
    hide Inv, ListsOk, OnlyIn, Without, Do;
    PcKnown(s, id);
    FreeMoves(s, FreeNode(id));
  }

  /** Where a call is when it has given its lock back: on to the next bucket, or done. */
  ghost predicate LetGo(s: State, s': State, id: nat)
    requires id in s.pc
  {
    && Shaped(s) && Shaped(s') && BucketOf(s.pc[id]) < BUCKETS && s'.lock == s.lock[BucketOf(s.pc[id]) := None]
    && id in s'.pc && s'.pc == s.pc[id := s'.pc[id]]
    && (if s.pc[id].Cleaning? && s.pc[id].h + 1 < BUCKETS then s'.pc[id] == Locking(Cleanup, s.pc[id].h + 1)
        else s'.pc[id].Returning? && s'.pc[id].op == if s.pc[id].Cleaning? then Cleanup else s.pc[id].op)
  }

  lemma UnlockLetsGo(s: State, id: nat)
    requires Inv(s) && id in s.pc && (s.pc[id].Unlocking? || (s.pc[id].Cleaning? && s.pc[id].cur.None?))
    ensures var a := NextStep(id, s.pc[id]); Enabled(s, a) && LetGo(s, Do(s, a), id)
  {
    hide Inv, ListsOk, OnlyIn;
    PcKnown(s, id);
  }

  lemma LetsGoLater(s: State, s1: State, s2: State, id: nat)
    requires id in s.pc && GoesOn(s, s1, id) && LetGo(s1, s2, id)
    ensures LetGo(s, s2, id)
  {
    hide Work, Hash;
  }

  /** In every reachable state a call in its critical section can come out of it by its own steps. */
  lemma {:induction false} CanLetGo(acts: seq<Action>, id: nat) returns (acts': seq<Action>)
    requires Exec(acts).Some? && id in Exec(acts).value.pc && InCritical(Exec(acts).value.pc[id])
    ensures acts < acts' && Exec(acts').Some? && LetGo(Exec(acts).value, Exec(acts').value, id)
    decreases Work(Exec(acts).value, Exec(acts).value.pc[id])
  {
    hide Exec, Inv, Do, Enabled, Work, BucketOf;
    Reachable(acts);
    var s := Exec(acts).value;
    var pc := s.pc[id];
    if pc.Unlocking? || (pc.Cleaning? && pc.cur.None?) {
      UnlockLetsGo(s, id);
      acts' := Then(acts, NextStep(id, pc));
    } else {
      if pc.Cleaning? { FreeGoesOn(s, id); } else if pc.Hit? { HitGoesOn(s, id); } else { ScanGoesOn(s, id); }
      var next := Then(acts, NextStep(id, pc));
      acts' := CanLetGo(next, id);
      LetsGoLater(s, Exec(next).value, Exec(acts').value, id);
    }
  }

  /** A call that waits for a bucket can get it, after whoever has it has come out. */
  lemma CanLock(acts: seq<Action>, id: nat) returns (acts': seq<Action>)
    requires Exec(acts).Some? && id in Exec(acts).value.pc && Exec(acts).value.pc[id].Locking?
    ensures acts < acts' && Exec(acts').Some? && id in Exec(acts').value.pc
    ensures var pc, pc' := Exec(acts).value.pc[id], Exec(acts').value.pc[id];
      if pc.op.Cleanup? then pc'.Cleaning? && pc'.h == pc.h else pc'.Scanning? && pc'.op == pc.op
  {
    hide Exec, Inv, LetGo;
    Reachable(acts);
    var s := Exec(acts).value;
    var h := s.pc[id].h;
    PcKnown(s, id);
    acts' := acts;
    if s.lock[h].Some? {
      var j := s.lock[h].value;
      Holder(s, h);
      acts' := CanLetGo(acts, j);
      OtherWaits(s, Exec(acts').value, j, id, h);
    }
    acts' := Then(acts', Lock(id));
  }

  lemma Holder(s: State, h: nat)
    requires Inv(s) && h < BUCKETS && s.lock[h].Some?
    ensures var j := s.lock[h].value; j in s.pc && InCritical(s.pc[j]) && BucketOf(s.pc[j]) == h
  {
    hide PcOk, ListsOk;
  }

  lemma OtherWaits(s: State, s': State, j: nat, id: nat, h: nat)
    requires j in s.pc && LetGo(s, s', j) && id in s.pc && id != j && BucketOf(s.pc[j]) == h < BUCKETS
    ensures id in s'.pc && s'.pc[id] == s.pc[id] && s'.lock[h] == None
  {
  }

  /** The sections a call has still to go through, and where it stands before or in the next. */
  ghost function Rank(pc: Pc): nat {
    if pc.Returned? then 0
    else if pc.Returning? then 1
    else if pc.Locking? then (if pc.h < BUCKETS then 2 * (BUCKETS - pc.h) else 0) + 3
    else (if pc.Cleaning? && pc.h < BUCKETS then 2 * (BUCKETS - pc.h) else 0) + 2
  }

  /** In every reachable state every call, a cleanup like any other, can be run to its return. */
  lemma {:induction false} CallCanReturn(acts: seq<Action>, id: nat) returns (acts': seq<Action>)
    requires Exec(acts).Some? && id in Exec(acts).value.pc
    ensures acts <= acts' && Exec(acts').Some? && id in Exec(acts').value.pc && Exec(acts').value.pc[id].Returned?
    decreases Rank(Exec(acts).value.pc[id])
  {
    hide Exec, Inv;
    Reachable(acts);
    var s := Exec(acts).value;
    var pc := s.pc[id];
    PcKnown(s, id);
    if pc.Returned? {
      acts' := acts;
    } else if pc.Returning? {
      acts' := Then(acts, Return(id));
    } else if pc.Locking? {
      var next := CanLock(acts, id);
      acts' := CallCanReturn(next, id);
    } else {
      var next := CanLetGo(acts, id);
      acts' := CallCanReturn(next, id);
    }
  }
}
