/**
 * The per-CPU cache of kernel stacks.  Allocation, duplication of the task_struct, release and CPU
 * hot-unplug interleave in any order, and a task may migrate between any two of its cache accesses.
 * Each xchg and cmpxchg is one step.  Touching or freeing a stack that is not live sets `crashed`.
 */
module StackCache {
  import opened Lists

  const NR_CACHED_STACKS: nat := 2

  /** init_task: always running, on a stack of its own that no allocator knows, so its field is NULL. */
  const INIT_TASK: nat := 0

  /** Where the life of one task_struct's stack stands. */
  datatype Pc =
    | NoStack
    | Trying(i: nat)          // alloc_thread_stack_node, before slot i
    | Reusing(s: nat)         // took s out of a slot, memset not yet done
    | Zeroed(s: nat)          // about to be stored in the task
    | Assigned                // back in dup_task_struct
    | Clobbered(s: nat)       // the parent's task_struct was copied over ours; s is a local
    | Ready                   // stack fields restored
    | Running
    | Releasing(i: nat)       // free_thread_stack, before slot i

  /** `vm` is the field stack_vm_area. */
  datatype Task = Task(pc: Pc, vm: Option<nat>)

  /** A CPU is up, or its slots are being drained after it went down. */
  datatype Cpu = Up | Draining(i: nat) | Clearing(i: nat)

  datatype State = State(
    tasks: map<nat, Task>,
    cpus: map<nat, Cpu>,
    slots: map<(nat, nat), Option<nat>>,
    dirty: map<nat, bool>,    // the live stacks
    crashed: bool)

  datatype Action =
    | StartAlloc(t: nat)
    | Xchg(t: nat, cpu: nat)
    | Memset(t: nat)
    | Vmalloc(t: nat, s: nat)
    | VmallocFails(t: nat)
    | Assign(t: nat)
    | CopyParent(t: nat, orig: nat)
    | Restore(t: nat, ok: bool)
    | Start(t: nat)
    | Use(t: nat)
    | Fail(t: nat)
    | Die(t: nat)
    | Cmpxchg(t: nat, cpu: nat)
    | Vfree(t: nat)
    | GoDown(cpu: nat)
    | DrainSlot(cpu: nat)
    | ClearSlot(cpu: nat)
    | ComeUp(cpu: nat)

  predicate Shaped(st: State) {
    forall cpu: nat, i: nat :: cpu in st.cpus && i < NR_CACHED_STACKS ==> (cpu, i) in st.slots
  }

  predicate Online(st: State, cpu: nat) {
    cpu in st.cpus && st.cpus[cpu].Up?
  }

  predicate At(st: State, t: nat, pc: Pc) {
    t in st.tasks && st.tasks[t].pc == pc
  }

  predicate Enabled(st: State, a: Action) {
    match a
    case StartAlloc(t) => t !in st.tasks || st.tasks[t].pc.NoStack?
    case Xchg(t, cpu) => t in st.tasks && st.tasks[t].pc.Trying? && st.tasks[t].pc.i < NR_CACHED_STACKS &&
        Online(st, cpu)
    case Memset(t) => t in st.tasks && st.tasks[t].pc.Reusing?
    case Vmalloc(t, s) => At(st, t, Trying(NR_CACHED_STACKS)) && s !in st.dirty
    case VmallocFails(t) => At(st, t, Trying(NR_CACHED_STACKS))
    case Assign(t) => t in st.tasks && st.tasks[t].pc.Zeroed?
    case CopyParent(t, orig) => At(st, t, Assigned) && st.tasks[t].vm.Some? && At(st, orig, Running)
    case Restore(t, ok) => t in st.tasks && st.tasks[t].pc.Clobbered?
    case Start(t) => At(st, t, Ready)
    case Use(t) => At(st, t, Running) && t != INIT_TASK
    case Fail(t) => At(st, t, Assigned) || At(st, t, Ready)
    case Die(t) => At(st, t, Running) && t != INIT_TASK
    case Cmpxchg(t, cpu) => t in st.tasks && st.tasks[t].pc.Releasing? && st.tasks[t].pc.i < NR_CACHED_STACKS &&
        Online(st, cpu)
    case Vfree(t) => At(st, t, Releasing(NR_CACHED_STACKS))
    case GoDown(cpu) => Online(st, cpu)
    case DrainSlot(cpu) => cpu in st.cpus && st.cpus[cpu].Draining? && st.cpus[cpu].i < NR_CACHED_STACKS
    case ClearSlot(cpu) => cpu in st.cpus && st.cpus[cpu].Clearing? && st.cpus[cpu].i < NR_CACHED_STACKS
    case ComeUp(cpu) => cpu in st.cpus && st.cpus[cpu] == Draining(NR_CACHED_STACKS)
  }

  function Go(st: State, t: nat, pc: Pc): State
    requires t in st.tasks
  {
    st.(tasks := st.tasks[t := st.tasks[t].(pc := pc)])
  }

  function Crash(st: State): State { st.(crashed := true) }

  function Do(st: State, a: Action): State
    requires Shaped(st) && Enabled(st, a)
  {
    match a
    case StartAlloc(t) => st.(tasks := st.tasks[t := Task(Trying(0), None)])
    case Xchg(t, cpu) =>
      var i := st.tasks[t].pc.i;
      var got := st.slots[(cpu, i)];
      if got.None? then Go(st, t, Trying(i + 1))
      else Go(st.(slots := st.slots[(cpu, i) := None]), t, Reusing(got.value))
    case Memset(t) =>
      var s := st.tasks[t].pc.s;
      if s !in st.dirty then Crash(st) else Go(st.(dirty := st.dirty[s := false]), t, Zeroed(s))
    case Vmalloc(t, s) => Go(st.(dirty := st.dirty[s := false]), t, Zeroed(s))
    case VmallocFails(t) => Go(st, t, NoStack)
    case Assign(t) => st.(tasks := st.tasks[t := Task(Assigned, Some(st.tasks[t].pc.s))])
    case CopyParent(t, orig) =>
      st.(tasks := st.tasks[t := Task(Clobbered(st.tasks[t].vm.value), st.tasks[orig].vm)])
    case Restore(t, ok) =>
      st.(tasks := st.tasks[t := Task(if ok then Ready else Releasing(0), Some(st.tasks[t].pc.s))])
    case Start(t) => Go(st, t, Running)
    case Use(t) =>
      var vm := st.tasks[t].vm;
      if vm.None? || vm.value !in st.dirty then Crash(st) else st.(dirty := st.dirty[vm.value := true])
    case Fail(t) => Go(st, t, Releasing(0))
    case Die(t) => Go(st, t, Releasing(0))
    case Cmpxchg(t, cpu) =>
      var i := st.tasks[t].pc.i;
      if st.slots[(cpu, i)].Some? then Go(st, t, Releasing(i + 1))
      else st.(slots := st.slots[(cpu, i) := st.tasks[t].vm], tasks := st.tasks[t := Task(NoStack, None)])
    case Vfree(t) =>
      var vm := st.tasks[t].vm;
      if vm.None? || vm.value !in st.dirty then Crash(st)
      else st.(dirty := st.dirty - {vm.value}, tasks := st.tasks[t := Task(NoStack, None)])
    case GoDown(cpu) => st.(cpus := st.cpus[cpu := Draining(0)])
    case DrainSlot(cpu) =>
      var i := st.cpus[cpu].i;
      var got := st.slots[(cpu, i)];
      if got.None? then st.(cpus := st.cpus[cpu := Draining(i + 1)])
      else if got.value !in st.dirty then Crash(st)
      else st.(dirty := st.dirty - {got.value}, cpus := st.cpus[cpu := Clearing(i)])
    case ClearSlot(cpu) =>
      var i := st.cpus[cpu].i;
      st.(slots := st.slots[(cpu, i) := None], cpus := st.cpus[cpu := Draining(i + 1)])
    case ComeUp(cpu) => st.(cpus := st.cpus[cpu := Up])
  }

  /** Only init_task runs, on any number of CPUs, all up and with empty caches. */
  ghost predicate Initial(st: State) {
    && Shaped(st) && st.tasks == map[INIT_TASK := Task(Running, None)] && st.dirty == map[] && !st.crashed
    && (forall cpu :: cpu in st.cpus ==> st.cpus[cpu].Up?)
    && forall slot :: slot in st.slots ==> st.slots[slot].None? && slot.0 in st.cpus && slot.1 < NR_CACHED_STACKS
  }

  /** The state after a run, or None when some action was not enabled. */
  function Exec(st0: State, acts: seq<Action>): (r: Option<State>)
    requires Shaped(st0)
    ensures r.Some? ==> Shaped(r.value)
  {
    if acts == [] then Some(st0)
    else
      var r := Exec(st0, acts[..|acts| - 1]);
      var a := acts[|acts| - 1];
      if r.Some? && Enabled(r.value, a) then Some(Do(r.value, a)) else None
  }

  // ----- Where a stack can be -----

  datatype Place = InTask(t: nat) | InSlot(cpu: nat, i: nat)

  /** The stack a task has to itself: in a local variable, or in its own field. */
  function Held(task: Task): Option<nat> {
    match task.pc
    case NoStack => None
    case Trying(_) => None
    case Reusing(s) => Some(s)
    case Zeroed(s) => Some(s)
    case Clobbered(s) => Some(s)
    case _ => task.vm
  }

  /** The stack at a place; a slot whose stack the drain has just freed counts as empty. */
  function StackAt(st: State, p: Place): Option<nat> {
    match p
    case InTask(t) => if t in st.tasks then Held(st.tasks[t]) else None
    case InSlot(cpu, i) =>
      if (cpu, i) !in st.slots || (cpu in st.cpus && st.cpus[cpu] == Clearing(i)) then None else st.slots[(cpu, i)]
  }

  /** `w` says where each live stack is, and it is to be found nowhere else. */
  ghost predicate Located(st: State, w: map<nat, Place>) {
    && w.Keys == st.dirty.Keys
    && (forall s :: s in w ==> StackAt(st, w[s]) == Some(s))
    && (forall p :: StackAt(st, p).Some? ==> StackAt(st, p).value in w && w[StackAt(st, p).value] == p)
  }

  /** A task past allocation has its stack in its field, and a stack about to be handed out is clean. */
  predicate TaskOk(st: State, t: nat)
    requires t in st.tasks
  {
    var task := st.tasks[t];
    && (task.pc.Zeroed? ==> task.pc.s in st.dirty && !st.dirty[task.pc.s])
    && (task.pc.Assigned? || task.pc.Ready? || task.pc.Running? || task.pc.Releasing? ==>
          task.vm.Some? || t == INIT_TASK)
    && (t == INIT_TASK ==> task == Task(Running, None))
  }

  ghost predicate Inv(st: State, w: map<nat, Place>) {
    && Shaped(st) && !st.crashed && Located(st, w) && INIT_TASK in st.tasks
    && (forall t :: t in st.tasks ==> TaskOk(st, t))
    && (forall slot :: slot in st.slots ==> slot.0 in st.cpus && slot.1 < NR_CACHED_STACKS)
    && (forall cpu :: cpu in st.cpus && st.cpus[cpu].Clearing? ==> st.cpus[cpu].i < NR_CACHED_STACKS)
  }

  /** How a step moves stacks about. */
  ghost function Moved(st: State, w: map<nat, Place>, a: Action): map<nat, Place>
    requires Shaped(st) && Enabled(st, a)
  {
    match a
    case Xchg(t, cpu) =>
      var got := st.slots[(cpu, st.tasks[t].pc.i)];
      if got.Some? then w[got.value := InTask(t)] else w
    case Vmalloc(t, s) => w[s := InTask(t)]
    case Cmpxchg(t, cpu) =>
      if st.slots[(cpu, st.tasks[t].pc.i)].None? && st.tasks[t].vm.Some?
      then w[st.tasks[t].vm.value := InSlot(cpu, st.tasks[t].pc.i)] else w
    case Vfree(t) => if st.tasks[t].vm.Some? then w - {st.tasks[t].vm.value} else w
    case DrainSlot(cpu) =>
      var got := st.slots[(cpu, st.cpus[cpu].i)];
      if got.Some? then w - {got.value} else w
    case _ => w
  }

  /** A step of one task that leaves every stack where it is and writes to no stack but its own. */
  lemma OneTaskKeeps(st: State, w: map<nat, Place>, st': State, t: nat)
    requires Inv(st, w) && t in st'.tasks
    requires st' == st.(tasks := st.tasks[t := st'.tasks[t]], dirty := st'.dirty)
    requires st'.dirty.Keys == st.dirty.Keys
    requires StackAt(st', InTask(t)) == StackAt(st, InTask(t))
    requires forall s :: s in st.dirty && StackAt(st, InTask(t)) != Some(s) ==> st'.dirty[s] == st.dirty[s]
    requires TaskOk(st', t)
    ensures Inv(st', w)
  {
    forall p ensures StackAt(st', p) == StackAt(st, p) {}
    forall u | u in st'.tasks ensures TaskOk(st', u) {
      if u != t {
        assert TaskOk(st, u);
        assert StackAt(st, InTask(u)).Some? ==> w[StackAt(st, InTask(u)).value] == InTask(u);
      }
    }
  }

  lemma HeldIsLive(st: State, w: map<nat, Place>, t: nat)
    requires Located(st, w)
    ensures StackAt(st, InTask(t)).Some? ==> StackAt(st, InTask(t)).value in st.dirty
  {
  }

  lemma AllocKeeps(st: State, w: map<nat, Place>, a: Action)
    requires Inv(st, w) && Enabled(st, a) && (a.StartAlloc? || a.Memset? || a.VmallocFails? || a.Assign?)
    ensures Inv(Do(st, a), w)
  {
    hide Shaped, Located;
    assert a.t in st.tasks ==> TaskOk(st, a.t);
    HeldIsLive(st, w, a.t);
    OneTaskKeeps(st, w, Do(st, a), a.t);
  }

  lemma LifeKeeps(st: State, w: map<nat, Place>, a: Action)
    requires Inv(st, w) && Enabled(st, a)
    requires a.CopyParent? || a.Restore? || a.Start? || a.Use? || a.Fail? || a.Die?
    ensures Inv(Do(st, a), w)
  {
    hide Shaped, Located;
    assert a.t in st.tasks ==> TaskOk(st, a.t);
    HeldIsLive(st, w, a.t);
    OneTaskKeeps(st, w, Do(st, a), a.t);
  }

  /** Outside the two places the states agree. */
  ghost predicate AgreeBut(st: State, st': State, p: Place, q: Place) {
    forall r :: r != p && r != q ==> StackAt(st', r) == StackAt(st, r)
  }

  lemma Relocated(st: State, w: map<nat, Place>, st': State, s: nat, p: Place, q: Place)
    requires Located(st, w) && st'.dirty == st.dirty && p != q && AgreeBut(st, st', p, q)
    requires StackAt(st, p) == Some(s) && StackAt(st, q) == None
    requires StackAt(st', p) == None && StackAt(st', q) == Some(s)
    ensures Located(st', w[s := q])
  {
    hide StackAt;
  }

  lemma Born(st: State, w: map<nat, Place>, st': State, s: nat, p: Place)
    requires Located(st, w) && s !in st.dirty && st'.dirty.Keys == st.dirty.Keys + {s} && AgreeBut(st, st', p, p)
    requires StackAt(st, p) == None && StackAt(st', p) == Some(s)
    ensures Located(st', w[s := p])
  {
    hide StackAt;
  }

  lemma Gone(st: State, w: map<nat, Place>, st': State, s: nat, p: Place)
    requires Located(st, w) && st'.dirty == st.dirty - {s} && AgreeBut(st, st', p, p)
    requires StackAt(st, p) == Some(s) && StackAt(st', p) == None
    ensures Located(st', w - {s})
  {
    hide StackAt;
  }

  lemma XchgKeeps(st: State, w: map<nat, Place>, t: nat, cpu: nat)
    requires Inv(st, w) && Enabled(st, Xchg(t, cpu))
    ensures Inv(Do(st, Xchg(t, cpu)), Moved(st, w, Xchg(t, cpu)))
  {
    hide Located;
    var st', i := Do(st, Xchg(t, cpu)), st.tasks[t].pc.i;
    if st.slots[(cpu, i)].None? {
      OneTaskKeeps(st, w, st', t);
    } else {
      Relocated(st, w, st', st.slots[(cpu, i)].value, InSlot(cpu, i), InTask(t));
      forall u | u in st'.tasks ensures TaskOk(st', u) { assert u != t ==> TaskOk(st, u); }
    }
  }

  lemma VmallocKeeps(st: State, w: map<nat, Place>, t: nat, s: nat)
    requires Inv(st, w) && Enabled(st, Vmalloc(t, s))
    ensures Inv(Do(st, Vmalloc(t, s)), Moved(st, w, Vmalloc(t, s)))
  {
    hide Located;
    var st' := Do(st, Vmalloc(t, s));
    Born(st, w, st', s, InTask(t));
    forall u | u in st'.tasks ensures TaskOk(st', u) { assert u != t ==> TaskOk(st, u); }
  }

  lemma CmpxchgKeeps(st: State, w: map<nat, Place>, t: nat, cpu: nat)
    requires Inv(st, w) && Enabled(st, Cmpxchg(t, cpu))
    ensures Inv(Do(st, Cmpxchg(t, cpu)), Moved(st, w, Cmpxchg(t, cpu)))
  {
    hide Located;
    var st', i := Do(st, Cmpxchg(t, cpu)), st.tasks[t].pc.i;
    assert TaskOk(st, t);
    if st.slots[(cpu, i)].Some? {
      OneTaskKeeps(st, w, st', t);
    } else {
      Relocated(st, w, st', st.tasks[t].vm.value, InTask(t), InSlot(cpu, i));
      forall u | u in st'.tasks ensures TaskOk(st', u) { assert u != t ==> TaskOk(st, u); }
    }
  }

  /** No other task holds the stack at p. */
  lemma OthersKeepTheirs(st: State, w: map<nat, Place>, p: Place, u: nat)
    requires Located(st, w) && StackAt(st, p).Some? && p != InTask(u)
    ensures StackAt(st, InTask(u)) != StackAt(st, p)
  {
    assert w[StackAt(st, p).value] == p;
  }

  lemma VfreeKeeps(st: State, w: map<nat, Place>, t: nat)
    requires Inv(st, w) && Enabled(st, Vfree(t))
    ensures Inv(Do(st, Vfree(t)), Moved(st, w, Vfree(t)))
  {
    assert TaskOk(st, t);
    assert StackAt(st, InTask(t)) == st.tasks[t].vm;
    var s := st.tasks[t].vm.value;
    var st' := Do(st, Vfree(t));
    Gone(st, w, st', s, InTask(t));
    forall u | u in st'.tasks ensures TaskOk(st', u) {
      if u != t {
        assert TaskOk(st, u);
        OthersKeepTheirs(st, w, InTask(t), u);
      }
    }
  }

  lemma DrainKeeps(st: State, w: map<nat, Place>, cpu: nat)
    requires Inv(st, w) && Enabled(st, DrainSlot(cpu))
    ensures Inv(Do(st, DrainSlot(cpu)), Moved(st, w, DrainSlot(cpu)))
  {
    var i := st.cpus[cpu].i;
    assert StackAt(st, InSlot(cpu, i)) == st.slots[(cpu, i)];
    if st.slots[(cpu, i)].None? {
      HotplugKeeps(st, w, DrainSlot(cpu));
    } else {
      var st' := Do(st, DrainSlot(cpu));
      Gone(st, w, st', st.slots[(cpu, i)].value, InSlot(cpu, i));
      forall u | u in st'.tasks ensures TaskOk(st', u) {
        assert TaskOk(st, u);
        OthersKeepTheirs(st, w, InSlot(cpu, i), u);
      }
    }
  }

  /** Hot-plug steps that free nothing. */
  lemma HotplugKeeps(st: State, w: map<nat, Place>, a: Action)
    requires Inv(st, w) && Enabled(st, a)
    requires a.GoDown? || a.ClearSlot? || a.ComeUp? || (a.DrainSlot? && st.slots[(a.cpu, st.cpus[a.cpu].i)].None?)
    ensures Inv(Do(st, a), w)
  {
    hide TaskOk;
    var st' := Do(st, a);
    forall p ensures StackAt(st', p) == StackAt(st, p) {}
    forall u | u in st'.tasks ensures TaskOk(st', u) { SameTask(st, st', u); }
  }

  lemma SameTask(st: State, st': State, u: nat)
    requires u in st.tasks && TaskOk(st, u) && st'.tasks == st.tasks && st'.dirty == st.dirty
    ensures TaskOk(st', u)
  {
  }

  lemma StepKeeps(st: State, w: map<nat, Place>, a: Action)
    requires Inv(st, w) && Enabled(st, a)
    ensures Inv(Do(st, a), Moved(st, w, a))
  {
    hide Inv, Do, Enabled;
    match a {
      case Xchg(t, cpu) => XchgKeeps(st, w, t, cpu);
      case Vmalloc(t, s) => VmallocKeeps(st, w, t, s);
      case Cmpxchg(t, cpu) => CmpxchgKeeps(st, w, t, cpu);
      case Vfree(t) => VfreeKeeps(st, w, t);
      case DrainSlot(cpu) => DrainKeeps(st, w, cpu);
      case GoDown(_) => HotplugKeeps(st, w, a);
      case ClearSlot(_) => HotplugKeeps(st, w, a);
      case ComeUp(_) => HotplugKeeps(st, w, a);
      case StartAlloc(_) => AllocKeeps(st, w, a);
      case Memset(_) => AllocKeeps(st, w, a);
      case VmallocFails(_) => AllocKeeps(st, w, a);
      case Assign(_) => AllocKeeps(st, w, a);
      case _ => LifeKeeps(st, w, a);
    }
  }

  // ----- Every run -----

  lemma {:induction false} RunKeeps(st0: State, acts: seq<Action>) returns (w: map<nat, Place>)
    requires Initial(st0) && Exec(st0, acts).Some?
    ensures Inv(Exec(st0, acts).value, w)
  {
    if acts == [] {
      w := map[];
      forall p ensures StackAt(st0, p).None? {}
      assert TaskOk(st0, INIT_TASK);
    } else {
      var w0 := RunKeeps(st0, acts[..|acts| - 1]);
      var st, a := Exec(st0, acts[..|acts| - 1]).value, acts[|acts| - 1];
      StepKeeps(st, w0, a);
      w := Moved(st, w0, a);
    }
  }

  /** p is where s is. */
  predicate Is(st: State, p: Place, s: nat) {
    StackAt(st, p) == Some(s)
  }

  /**
   * In every reachable state nothing was used or freed after a free, every live stack is in exactly
   * one place, whatever is in a task or a slot is live, and a CPU has two slots at most.
   */
  lemma ExactlyOnePlace(st0: State, acts: seq<Action>)
    requires Initial(st0) && Exec(st0, acts).Some?
    ensures var st := Exec(st0, acts).value;
            && !st.crashed
            && (forall s :: s in st.dirty ==> exists p :: Is(st, p, s))
            && (forall s, p :: Is(st, p, s) ==> s in st.dirty)
            && (forall s, p, q :: Is(st, p, s) && Is(st, q, s) ==> p == q)
            && (forall s, cpu: nat, i: nat :: Is(st, InSlot(cpu, i), s) ==> cpu in st.cpus && i < NR_CACHED_STACKS)
  {
    var w := RunKeeps(st0, acts);
    var st := Exec(st0, acts).value;
    forall s | s in st.dirty ensures exists p :: Is(st, p, s) { assert Is(st, w[s], s); }
  }

  /** Whenever alloc_thread_stack_node hands out a stack, that stack is live, all zero and nobody else's. */
  lemma HandedOutClean(st0: State, acts: seq<Action>, t: nat)
    requires Initial(st0) && Exec(st0, acts + [Assign(t)]).Some?
    ensures var st := Exec(st0, acts + [Assign(t)]).value;
            && t in st.tasks && st.tasks[t].vm.Some?
            && (var s := st.tasks[t].vm.value;
                && s in st.dirty && !st.dirty[s]
                && forall p :: Is(st, p, s) ==> p == InTask(t))
  {
    var acts' := acts + [Assign(t)];
    assert acts'[..|acts'| - 1] == acts;
    var w := RunKeeps(st0, acts);
    var st := Exec(st0, acts).value;
    assert TaskOk(st, t);
    ExactlyOnePlace(st0, acts');
    assert Is(Do(st, Assign(t)), InTask(t), st.tasks[t].pc.s);
  }

  /** free_thread_stack acts on the task's own stack, though the task_struct was once overwritten. */
  lemma FreesItsOwn(st0: State, acts: seq<Action>, t: nat)
    requires Initial(st0) && Exec(st0, acts).Some?
    requires t in Exec(st0, acts).value.tasks && Exec(st0, acts).value.tasks[t].pc.Releasing?
    ensures var st := Exec(st0, acts).value;
            st.tasks[t].vm.Some? && forall p :: Is(st, p, st.tasks[t].vm.value) <==> p == InTask(t)
  {
    var w := RunKeeps(st0, acts);
    var st := Exec(st0, acts).value;
    assert TaskOk(st, t);
    assert Is(st, InTask(t), st.tasks[t].vm.value);
    ExactlyOnePlace(st0, acts);
  }

  /** The drained slots of a CPU that is down are empty. */
  predicate Drained(st: State, cpu: nat)
    requires Shaped(st) && cpu in st.cpus
  {
    !st.cpus[cpu].Up? ==> forall i: nat :: i < NR_CACHED_STACKS && i < st.cpus[cpu].i ==> st.slots[(cpu, i)].None?
  }

  lemma DrainedStep(st: State, a: Action, cpu: nat)
    requires Shaped(st) && Enabled(st, a) && cpu in st.cpus && Drained(st, cpu)
    ensures cpu in Do(st, a).cpus && Drained(Do(st, a), cpu)
  {
    var st' := Do(st, a);
    if a.Xchg? || a.Cmpxchg? {
      assert st'.cpus == st.cpus;
      forall i: nat | i < NR_CACHED_STACKS && cpu != a.cpu ensures st'.slots[(cpu, i)] == st.slots[(cpu, i)] {}
    }
  }

  /** Nobody puts a stack into the cache of a CPU that is down. */
  lemma {:induction false} DrainedStaysEmpty(st0: State, acts: seq<Action>, cpu: nat)
    requires Initial(st0) && Exec(st0, acts).Some? && cpu in st0.cpus
    ensures cpu in Exec(st0, acts).value.cpus && Drained(Exec(st0, acts).value, cpu)
  {
    hide Do, Enabled;
    if acts == [] {
      assert st0.cpus[cpu].Up?;
    } else {
      var pre := acts[..|acts| - 1];
      DrainedStaysEmpty(st0, pre, cpu);
      DrainedStep(Exec(st0, pre).value, acts[|acts| - 1], cpu);
    }
  }

  // ----- The runs are not idle -----

  lemma Then(st0: State, acts: seq<Action>, st: State, a: Action) returns (acts': seq<Action>, st': State)
    requires Shaped(st0) && Shaped(st) && Exec(st0, acts) == Some(st) && Enabled(st, a)
    ensures acts' == acts + [a] && st' == Do(st, a) && Shaped(st') && Exec(st0, acts') == Some(st')
  {
    acts' := acts + [a];
    assert acts'[..|acts'| - 1] == acts;
    st' := Do(st, a);
  }

  /** A run in which the caller's task_struct has overwritten the field that holds task t's stack. */
  lemma ReachesClobbered(st0: State, cpu: nat, t: nat, s: nat) returns (acts: seq<Action>, st: State)
    requires Initial(st0) && cpu in st0.cpus && t != INIT_TASK
    ensures Exec(st0, acts) == Some(st)
    ensures st == st0.(tasks := st0.tasks[t := Task(Clobbered(s), None)], dirty := map[s := false])
  {
    hide Exec, Initial, Shaped;
    assert Shaped(st0) && Exec(st0, []) == Some(st0) && Idle(st0, cpu) by { Begins(st0, cpu); }
    acts, st := Then(st0, [], st0, StartAlloc(t));
    acts, st := Then(st0, acts, st, Xchg(t, cpu));
    acts, st := Then(st0, acts, st, Xchg(t, cpu));
    acts, st := Then(st0, acts, st, Vmalloc(t, s));
    acts, st := Then(st0, acts, st, Assign(t));
    acts, st := Then(st0, acts, st, CopyParent(t, INIT_TASK));
  }

  predicate Idle(st: State, cpu: nat) {
    && st.tasks == map[INIT_TASK := Task(Running, None)] && st.dirty == map[] && Online(st, cpu)
    && forall i: nat :: i < NR_CACHED_STACKS ==> (cpu, i) in st.slots && st.slots[(cpu, i)].None?
  }

  lemma Begins(st0: State, cpu: nat)
    requires Initial(st0) && cpu in st0.cpus
    ensures Shaped(st0) && Exec(st0, []) == Some(st0) && Idle(st0, cpu)
  {
  }

  /** A run in which a task u has taken a dirty stack out of a slot and not yet cleared it. */
  lemma ReusesDirty(st0: State, cpu: nat, t: nat, s: nat, u: nat) returns (acts: seq<Action>, st: State)
    requires Initial(st0) && cpu in st0.cpus && t != INIT_TASK && u != INIT_TASK && t != u
    ensures Exec(st0, acts) == Some(st)
    ensures u in st.tasks && st.tasks[u].pc == Reusing(s) && s in st.dirty && st.dirty[s]
  {
    hide Exec, Initial, Shaped;
    assert Shaped(st0) && Idle(st0, cpu) by { Begins(st0, cpu); }
    acts, st := ReachesClobbered(st0, cpu, t, s);
    assert Shaped(st) by { ExecShaped(st0, acts); }
    acts, st := Then(st0, acts, st, Restore(t, true));
    acts, st := Then(st0, acts, st, Start(t));
    acts, st := Then(st0, acts, st, Use(t));
    acts, st := Then(st0, acts, st, Die(t));
    acts, st := Then(st0, acts, st, Cmpxchg(t, cpu));
    acts, st := Then(st0, acts, st, StartAlloc(u));
    acts, st := Then(st0, acts, st, Xchg(u, cpu));
  }

  lemma ExecShaped(st0: State, acts: seq<Action>)
    requires Shaped(st0) && Exec(st0, acts).Some?
    ensures Shaped(Exec(st0, acts).value)
  {
  }
}
