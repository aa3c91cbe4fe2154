/**
 * What tasks share.  Any number of tasks clone at the same time; every clone goes through
 * copy_sighand, copy_signal, copy_mm, the pid, the kv step and the attachment under
 * tasklist_lock, and may fail between any two of them and unwind.  A task that is alone in its
 * thread group may exec: it gets a new address space, then a sighand of its own if it shares one.
 * A task that exits gives up its count in live, its address space, and when it is reaped the rest.
 */
module CloneSharing {
  import opened Lists
  import opened Holders
  import CopyProcess

  datatype Stage = AtSighand | AtSignal | AtMm | AtPid | AtKv | AtAttach

  datatype Label = CleanPid | CleanMm | CleanSignal | CleanSighand

  /** `idle` is a call by fork_idle, which brings the pid 0. */
  datatype Pc =
    | User
    | Build(f: CopyProcess.Flags, idle: bool, k: Stage)
    | Undo(f: CopyProcess.Flags, at: Label)
    | Exiting

  /**
   * A task is a key of `tgid`.  In each table `of` is the task's field, `copy` the field of the
   * child a task is building, and `count` is sighand.count, signal.nr_threads and mm.mm_users.
   * `live` is signal.live: its `of` has the tasks that have not begun to exit, and a signal_struct
   * at zero is not in its `count`.  A task without an address space or a store is not in the map.
   * The idle tasks, whose pid is always 0, are told apart by the number they have here.
   * `midExec` has the tasks between exec_mmap and unshare_sighand, `zombies` those past exit_mm.
   */
  datatype State = State(
    pc: map<nat, Pc>, tgid: map<nat, nat>,
    sighand: Table, signal: Table, live: Table, mm: Table,
    kv: map<nat, nat>, newKv: map<nat, nat>, stores: set<nat>,
    newPid: map<nat, nat>, midExec: set<nat>, zombies: set<nat>, crashed: bool)

  datatype Action =
    | Begin(t: nat, f: CopyProcess.Flags, who: CopyProcess.Current)
    | CopySighand(t: nat, n: nat)
    | CopySignal(t: nat, n: nat)
    | CopyMm(t: nat, n: nat)
    | AllocPid(t: nat, p: nat)
    | InitKv(t: nat, s: nat)
    | Attach(t: nat)
    | Fail(t: nat)
    | Unwind(t: nat)
    | ExecMm(t: nat, n: nat)
    | ExecSighand(t: nat, n: nat)
    | StartExit(t: nat)
    | ExitMm(t: nat)
    | Reap(t: nat)

  predicate At(st: State, t: nat, k: Stage) {
    t in st.pc && st.pc[t].Build? && st.pc[t].k == k
  }

  /** In user space, or anywhere a clone or an exec may start. */
  predicate Ready(st: State, t: nat) {
    t in st.pc && st.pc[t].User? && t !in st.midExec
  }

  /** The boot task and the idle tasks, whose pid is 0. */
  predicate IsIdle(st: State, t: nat) {
    t in st.tgid && st.tgid[t] == 0
  }

  /** t is the only one counted for its object. */
  predicate Alone(x: Table, t: nat) {
    t in x.of && Sole(x.count, x.of[t])
  }

  /** fork_idle passes CLONE_VM and nothing else that matters here. */
  predicate IdleFlags(f: CopyProcess.Flags) {
    f.vm && !f.sighand && !f.thread
  }

  predicate Enabled(st: State, a: Action) {
    match a
    case Begin(t, f, who) => Ready(st, t) && CopyProcess.Accepted(f, who) && (who.idle ==> IdleFlags(f))
    case CopySighand(t, n) => At(st, t, AtSighand) && n !in st.sighand.count
    case CopySignal(t, n) => At(st, t, AtSignal) && n !in st.signal.count
    case CopyMm(t, n) => At(st, t, AtMm) && n !in st.mm.count
    case AllocPid(t, p) => At(st, t, AtPid) && p !in st.tgid && forall u :: u in st.newPid ==> st.newPid[u] != p
    case InitKv(t, s) => At(st, t, AtKv) && s !in st.stores
    case Attach(t) => At(st, t, AtAttach)
    case Fail(t) => t in st.pc && st.pc[t].Build?
    case Unwind(t) => t in st.pc && st.pc[t].Undo?
    case ExecMm(t, n) => Ready(st, t) && Alone(st.signal, t) && n !in st.mm.count
    case ExecSighand(t, n) => t in st.pc && st.pc[t].User? && t in st.midExec && n !in st.sighand.count
    case StartExit(t) => t in st.pc && st.pc[t].User? && !IsIdle(st, t)
    case ExitMm(t) => t in st.pc && st.pc[t].Exiting? && t !in st.zombies
    case Reap(t) => t in st.zombies && t in st.tgid && (st.tgid[t] != t || Alone(st.signal, t))
  }

  function Go(st: State, t: nat, pc: Pc): State {
    st.(pc := st.pc[t := pc])
  }

  function Crash(st: State): State { st.(crashed := true) }

  /** Share t's object, or make a new one, for the child. */
  function Acquire(x: Table, t: nat, share: bool, n: nat): Option<Table> {
    if share then Hold(x, t, true, n) else Some(Fresh(x, t, n))
  }

  /** Where a clone that fails before stage k starts to unwind; a store taken stays behind. */
  function FailAt(f: CopyProcess.Flags, k: Stage): Pc {
    match k
    case AtSighand => User
    case AtSignal => Undo(f, CleanSighand)
    case AtMm => Undo(f, CleanSignal)
    case AtPid => Undo(f, CleanMm)
    case AtKv => Undo(f, CleanPid)
    case AtAttach => Undo(f, CleanPid)
  }

  function DoUnwind(st: State, t: nat): State
    requires t in st.pc && st.pc[t].Undo?
  {
    var f := st.pc[t].f;
    match st.pc[t].at
    case CleanPid => Go(st, t, Undo(f, CleanMm)).(newPid := st.newPid - {t}, newKv := st.newKv - {t})
    case CleanMm =>
      var x := Put(st.mm, t);
      if x.None? then Crash(st) else Go(st, t, Undo(f, CleanSignal)).(mm := x.value)
    case CleanSignal =>
      if f.thread then Go(st, t, Undo(f, CleanSighand))
      else
        var x, y := Discard(st.signal, t), Discard(st.live, t);
        if x.None? || y.None? then Crash(st)
        else Go(st, t, Undo(f, CleanSighand)).(signal := x.value, live := y.value)
    case CleanSighand =>
      var x := Put(st.sighand, t);
      if x.None? then Crash(st) else Go(st, t, User).(sighand := x.value)
  }

  /** A thread joins its creator's signal_struct, a process brings its own. */
  function Enroll(x: Table, t: nat, c: nat, thread: bool): Option<Table> {
    if thread then Join(x, t, c) else Give(x, t, c)
  }

  function TgidFor(st: State, t: nat, c: nat): nat
    requires At(st, t, AtAttach) && t in st.tgid
  {
    if st.pc[t].f.thread then st.tgid[t] else if st.pc[t].idle then 0 else c
  }

  function DoAttach(st: State, t: nat): State
    requires At(st, t, AtAttach)
  {
    var f := st.pc[t].f;
    if t !in st.newPid || t !in st.tgid then Crash(st)
    else
      var c := st.newPid[t];
      var hand := Give(st.sighand, t, c);
      var sig, live := Enroll(st.signal, t, c, f.thread), Enroll(st.live, t, c, f.thread);
      var mm := if t in st.mm.copy then Give(st.mm, t, c) else Some(st.mm);
      if hand.None? || sig.None? || live.None? || mm.None? then Crash(st)
      else
        st.(pc := st.pc[t := User][c := User], newPid := st.newPid - {t}, newKv := st.newKv - {t},
            tgid := st.tgid[c := TgidFor(st, t, c)],
            sighand := hand.value, signal := sig.value, live := live.value, mm := mm.value,
            kv := if t in st.newKv then st.kv[c := st.newKv[t]] else st.kv)
  }

  /** release_task: the task leaves its sighand and its signal_struct and is gone. */
  function DoReap(st: State, t: nat): State {
    if t !in st.sighand.of || t !in st.signal.of then Crash(st)
    else
      var hand, sig := Leave(st.sighand, t), Leave(st.signal, t);
      if hand.None? || sig.None? then Crash(st)
      else
        st.(pc := st.pc - {t}, tgid := st.tgid - {t}, kv := st.kv - {t}, sighand := hand.value, signal := sig.value,
            midExec := st.midExec - {t}, zombies := st.zombies - {t})
  }

  function Do(st: State, a: Action): State
    requires Enabled(st, a)
  {
    match a
    case Begin(t, f, who) => Go(st, t, Build(f, who.idle, AtSighand))
    case CopySighand(t, n) =>
      var x := Acquire(st.sighand, t, st.pc[t].f.sighand, n);
      if x.None? then Crash(st) else Go(st, t, st.pc[t].(k := AtSignal)).(sighand := x.value)
    case CopySignal(t, n) =>
      var st' := Go(st, t, st.pc[t].(k := AtMm));
      if st.pc[t].f.thread then st' else st'.(signal := Fresh(st.signal, t, n), live := Fresh(st.live, t, n))
    case CopyMm(t, n) =>
      var st' := Go(st, t, st.pc[t].(k := AtPid));
      if t !in st.mm.of then st'
      else
        var x := Acquire(st.mm, t, st.pc[t].f.vm, n);
        if x.None? then Crash(st) else st'.(mm := x.value)
    case AllocPid(t, p) => Go(st, t, st.pc[t].(k := AtKv)).(newPid := st.newPid[t := p])
    case InitKv(t, s) =>
      var st' := Go(st, t, st.pc[t].(k := AtAttach));
      if !st.pc[t].f.thread then st'.(newKv := st.newKv[t := s], stores := st.stores + {s})
      else if t in st.kv then st'.(newKv := st.newKv[t := st.kv[t]])
      else st'
    case Attach(t) => DoAttach(st, t)
    case Fail(t) => Go(st, t, FailAt(st.pc[t].f, st.pc[t].k))
    case Unwind(t) => DoUnwind(st, t)
    case ExecMm(t, n) =>
      var x := Replace(st.mm, t, n);
      if x.None? then Crash(st) else st.(mm := x.value, midExec := st.midExec + {t})
    case ExecSighand(t, n) =>
      var st' := st.(midExec := st.midExec - {t});
      if Alone(st.sighand, t) then st'
      else
        var x := Replace(st.sighand, t, n);
        if x.None? then Crash(st) else st'.(sighand := x.value)
    case StartExit(t) =>
      if t !in st.live.of then Crash(st)
      else
        var x := Leave(st.live, t);
        if x.None? then Crash(st) else Go(st, t, Exiting).(live := x.value)
    case ExitMm(t) =>
      var x := if t in st.mm.of then Leave(st.mm, t) else Some(st.mm);
      if x.None? then Crash(st) else st.(mm := x.value, zombies := st.zombies + {t})
    case Reap(t) => DoReap(st, t)
  }

  /** The boot task: alone in its group, without an address space or a store. */
  const INIT: State := State(
    map[0 := User], map[0 := 0],
    Table(map[0 := 0], map[], map[0 := 1]), Table(map[0 := 0], map[], map[0 := 1]),
    Table(map[0 := 0], map[], map[0 := 1]), Table(map[], map[], map[]), map[], map[], {}, map[], {}, {}, false)

  /** The state after a run, or None when some action was not enabled. */
  function Exec(acts: seq<Action>): Option<State> {
    if acts == [] then Some(INIT)
    else
      var r := Exec(acts[..|acts| - 1]);
      var a := acts[|acts| - 1];
      if r.Some? && Enabled(r.value, a) then Some(Do(r.value, a)) else None
  }

  // ----- The invariant -----

  /** i and j agree on a field that may be NULL. */
  predicate SameOpt(m: map<nat, nat>, i: nat, j: nat) {
    (i in m <==> j in m) && (i in m && j in m ==> m[i] == m[j])
  }

  /** The fields that say what tasks share. */
  datatype Fields = Fields(
    tgid: map<nat, nat>, hand: map<nat, nat>, sig: map<nat, nat>, mm: map<nat, nat>, kv: map<nat, nat>,
    midExec: set<nat>, zombies: set<nat>)

  predicate IsTask(x: Fields, i: nat) {
    i in x.tgid && i in x.hand && i in x.sig
  }

  /** What two tasks share; a thread group is a signal_struct. */
  predicate PairOk(x: Fields, i: nat, j: nat)
    requires IsTask(x, i) && IsTask(x, j)
  {
    && (x.sig[i] == x.sig[j] ==> x.tgid[i] == x.tgid[j] && x.hand[i] == x.hand[j] && SameOpt(x.kv, i, j))
    && (x.sig[i] == x.sig[j] && i !in x.zombies && j !in x.zombies ==> SameOpt(x.mm, i, j))
    && (x.tgid[i] == x.tgid[j] != 0 ==> x.sig[i] == x.sig[j])
    && (SameOpt(x.kv, i, j) ==> x.sig[i] == x.sig[j])
    && (x.hand[i] == x.hand[j] && i !in x.zombies && j !in x.zombies && i !in x.midExec && j !in x.midExec ==>
          SameOpt(x.mm, i, j))
  }

  ghost predicate Groups(x: Fields) {
    && (forall i {:trigger IsTask(x, i)} :: i in x.tgid ==> IsTask(x, i))
    && (forall i, j {:trigger PairOk(x, i, j)} :: IsTask(x, i) && IsTask(x, j) ==> PairOk(x, i, j))
  }

  function FieldsOf(st: State): Fields {
    Fields(st.tgid, st.sighand.of, st.signal.of, st.mm.of, st.kv, st.midExec, st.zombies)
  }

  predicate HasSighand(pc: Pc) {
    (pc.Build? && !pc.k.AtSighand?) || pc.Undo?
  }

  predicate HasSignal(pc: Pc) {
    || (pc.Build? && !pc.f.thread && !pc.k.AtSighand? && !pc.k.AtSignal?)
    || (pc.Undo? && !pc.f.thread && !pc.at.CleanSighand?)
  }

  predicate HasMm(pc: Pc) {
    (pc.Build? && (pc.k.AtPid? || pc.k.AtKv? || pc.k.AtAttach?)) || (pc.Undo? && (pc.at.CleanPid? || pc.at.CleanMm?))
  }

  predicate HasPid(pc: Pc) {
    (pc.Build? && (pc.k.AtKv? || pc.k.AtAttach?)) || (pc.Undo? && pc.at.CleanPid?)
  }

  predicate SighandLocal(pc: Pc, t: nat, x: Table) {
    && (t in x.copy <==> HasSighand(pc))
    && (HasSighand(pc) && pc.f.sighand ==> t in x.of && x.copy[t] == x.of[t])
    && (HasSighand(pc) && !pc.f.sighand ==> Sole(x.count, x.copy[t]))
  }

  predicate SignalLocal(pc: Pc, t: nat, x: Table) {
    && (t in x.copy <==> HasSignal(pc))
    && (HasSignal(pc) ==> Sole(x.count, x.copy[t]))
  }

  predicate MmLocal(pc: Pc, t: nat, x: Table) {
    && (t in x.copy <==> HasMm(pc) && t in x.of)
    && (t in x.copy && pc.f.vm ==> x.copy[t] == x.of[t])
  }

  predicate FlagsOk(pc: Pc) {
    && (pc.Build? || pc.Undo? ==> (pc.f.thread ==> pc.f.sighand) && (pc.f.sighand ==> pc.f.vm))
    && (pc.Build? && pc.idle ==> !pc.f.thread)
  }

  predicate PidLocal(pc: Pc, t: nat, newPid: map<nat, nat>) {
    FlagsOk(pc) && (t in newPid <==> HasPid(pc))
  }

  /** A thread is to get its creator's store; a store made for a child that is not attached is nobody's. */
  predicate KvLocal(pc: Pc, t: nat, kv: map<nat, nat>, newKv: map<nat, nat>) {
    && (t in newKv ==> HasPid(pc) && !(pc.Build? && pc.k.AtKv?))
    && (pc.Build? && pc.k.AtAttach? ==> if pc.f.thread then (t in newKv <==> t in kv) else t in newKv)
    && (t in newKv && pc.f.thread ==> t in kv && newKv[t] == kv[t])
    && (t in newKv && !pc.f.thread ==> Nobodys(t, kv, newKv))
  }

  predicate Nobodys(t: nat, kv: map<nat, nat>, newKv: map<nat, nat>)
    requires t in newKv
  {
    (forall i :: i in kv ==> kv[i] != newKv[t]) && (forall u :: u in newKv && u != t ==> newKv[u] != newKv[t])
  }

  predicate Within(m: map<nat, nat>, pc: map<nat, Pc>) {
    forall i :: i in m ==> i in pc
  }

  ghost predicate Sighands(pc: map<nat, Pc>, x: Table) {
    TableOk(x) && Within(x.of, pc) && Within(x.copy, pc) && forall t :: t in pc ==> SighandLocal(pc[t], t, x)
  }

  /** `mid` are the tasks in the middle of exec: each is alone in its thread group. */
  ghost predicate Signals(pc: map<nat, Pc>, x: Table, mid: set<nat>) {
    && TableOk(x) && Within(x.of, pc) && Within(x.copy, pc) && (forall t :: t in pc ==> SignalLocal(pc[t], t, x))
    && (forall t :: t in mid ==> Alone(x, t))
  }

  /** live counts the same signal_struct, for the tasks that are not exiting. */
  ghost predicate Lives(pc: map<nat, Pc>, sig: Table, live: Table) {
    && live.copy == sig.copy
    && (forall t :: t in pc ==> (t in live.of <==> !pc[t].Exiting?))
    && (forall t :: t in live.of ==> t in sig.of && live.of[t] == sig.of[t])
  }

  ghost predicate Mms(pc: map<nat, Pc>, x: Table) {
    TableOk(x) && Within(x.of, pc) && Within(x.copy, pc) && forall t :: t in pc ==> MmLocal(pc[t], t, x)
  }

  ghost predicate Kvs(pc: map<nat, Pc>, kv: map<nat, nat>, newKv: map<nat, nat>, stores: set<nat>) {
    && Within(kv, pc) && Within(newKv, pc)
    && (forall i :: i in kv ==> kv[i] in stores)
    && (forall i :: i in newKv ==> newKv[i] in stores)
    && (forall t :: t in pc ==> KvLocal(pc[t], t, kv, newKv))
  }

  predicate Leads(tgid: map<nat, nat>, g: nat) {
    g in tgid && tgid[g] == g
  }

  /** The tasks; the leader of every group is one of them. */
  ghost predicate Leaders(pc: map<nat, Pc>, tgid: map<nat, nat>) {
    && (forall i :: i in pc <==> i in tgid)
    && (forall i {:trigger tgid[i]} :: i in tgid ==> Leads(tgid, tgid[i]))
    && Leads(tgid, 0)
  }

  /** Only tasks in user space or on their way out can be in the middle of exec; zombies are exiting. */
  ghost predicate Marks(pc: map<nat, Pc>, midExec: set<nat>, zombies: set<nat>) {
    && (forall t :: t in midExec ==> t in pc && (pc[t].User? || pc[t].Exiting?))
    && (forall t :: t in zombies ==> t in pc && pc[t].Exiting?)
  }

  /** The pid of a child being built is no task's and no other child's. */
  ghost predicate Pids(pc: map<nat, Pc>, newPid: map<nat, nat>) {
    && Within(newPid, pc)
    && (forall i :: i in newPid ==> newPid[i] !in pc)
    && (forall i, j :: i in newPid && j in newPid && newPid[i] == newPid[j] ==> i == j)
    && (forall t :: t in pc ==> PidLocal(pc[t], t, newPid))
  }

  /** A zombie has no address space. */
  ghost predicate Gone(mm: map<nat, nat>, zombies: set<nat>) {
    forall t :: t in zombies ==> t !in mm
  }

  /** The boot task and the idle tasks do not exit. */
  ghost predicate Mortals(pc: map<nat, Pc>, tgid: map<nat, nat>) {
    forall t :: t in pc && pc[t].Exiting? ==> t in tgid && tgid[t] != 0
  }

  ghost predicate Inv(st: State) {
    && !st.crashed && Groups(FieldsOf(st))
    && Sighands(st.pc, st.sighand) && Mms(st.pc, st.mm)
    && Signals(st.pc, st.signal, st.midExec) && Signals(st.pc, st.live, {}) && Lives(st.pc, st.signal, st.live)
    && Kvs(st.pc, st.kv, st.newKv, st.stores) && Leaders(st.pc, st.tgid) && Pids(st.pc, st.newPid)
    && Marks(st.pc, st.midExec, st.zombies) && Gone(st.mm.of, st.zombies) && Mortals(st.pc, st.tgid)
  }

  // ----- Groups, when a task is attached -----

  /** c is made a copy of t in every field. */
  predicate Twin(m: map<nat, nat>, m': map<nat, nat>, t: nat, c: nat) {
    && c !in m && (c in m' <==> t in m) && (c in m' ==> m'[c] == m[t])
    && (forall i :: i in m ==> i in m' && m'[i] == m[i])
    && (forall i :: i in m' && i != c ==> i in m)
  }

  lemma ThreadJoins(x: Fields, y: Fields, t: nat, c: nat)
    requires Groups(x) && t in x.tgid && c !in x.tgid && t !in x.midExec && t !in x.zombies
    requires c !in x.midExec && c !in x.zombies && y.midExec == x.midExec && y.zombies == x.zombies
    requires Twin(x.tgid, y.tgid, t, c) && Twin(x.hand, y.hand, t, c) && Twin(x.sig, y.sig, t, c)
    requires Twin(x.mm, y.mm, t, c) && Twin(x.kv, y.kv, t, c)
    ensures Groups(y)
  {
    assert IsTask(x, t);
    forall i | i in y.tgid ensures IsTask(y, i) { if i != c { assert IsTask(x, i); } }
    forall i, j | IsTask(y, i) && IsTask(y, j) ensures PairOk(y, i, j) {
      var i0, j0 := if i == c then t else i, if j == c then t else j;
      assert IsTask(x, i0) && IsTask(x, j0);
      assert PairOk(x, i0, j0);
    }
  }

  /** c gets its own tgid (or 0), signal and store; its sighand is new, or t's along with t's address space. */
  lemma ProcessJoins(x: Fields, y: Fields, t: nat, c: nat)
    requires Groups(x) && t in x.tgid && c !in x.tgid && c !in x.hand && c !in x.sig && c !in x.mm && c !in x.kv
    requires c in y.tgid && c in y.hand && c in y.sig && c in y.kv
    requires y.tgid == x.tgid[c := y.tgid[c]] && y.hand == x.hand[c := y.hand[c]]
    requires y.sig == x.sig[c := y.sig[c]] && y.kv == x.kv[c := y.kv[c]]
    requires y.mm == if c in y.mm then x.mm[c := y.mm[c]] else x.mm
    requires t !in x.midExec && t !in x.zombies && y.midExec == x.midExec && y.zombies == x.zombies
    requires y.tgid[c] == 0 || forall i :: i in x.tgid ==> x.tgid[i] != y.tgid[c]
    requires forall i :: i in x.sig ==> x.sig[i] != y.sig[c]
    requires forall i :: i in x.kv ==> x.kv[i] != y.kv[c]
    requires
      || (forall i :: i in x.hand ==> x.hand[i] != y.hand[c])
      || (t in x.hand && y.hand[c] == x.hand[t] && SameOpt(y.mm, t, c))
    ensures Groups(y)
  {
    assert IsTask(x, t);
    forall i | i in y.tgid ensures IsTask(y, i) { if i != c { assert IsTask(x, i); } }
    forall i, j | IsTask(y, i) && IsTask(y, j) ensures PairOk(y, i, j) {
      if i != c && j != c {
        assert IsTask(x, i) && IsTask(x, j);
        assert PairOk(x, i, j);
      } else if i != c {
        assert IsTask(x, i);
        assert PairOk(x, i, t);
      } else if j != c {
        assert IsTask(x, j);
        assert PairOk(x, t, j);
      }
    }
  }

  /** t is the only task with its signal_struct. */
  ghost predicate Single(x: Fields, t: nat) {
    t in x.sig && forall i :: i in x.sig && i != t ==> x.sig[i] != x.sig[t]
  }

  /** exec_mmap: t, alone in its group, gets an address space that its sighand's other users do not have. */
  lemma MmChanges(x: Fields, t: nat, n: nat)
    requires Groups(x) && t in x.tgid && Single(x, t)
    ensures Groups(x.(mm := x.mm[t := n], midExec := x.midExec + {t}))
  {
    var y := x.(mm := x.mm[t := n], midExec := x.midExec + {t});
    forall i | i in y.tgid ensures IsTask(y, i) { assert IsTask(x, i); }
    forall i, j | IsTask(y, i) && IsTask(y, j) ensures PairOk(y, i, j) {
      assert IsTask(x, i) && IsTask(x, j);
      assert PairOk(x, i, j);
    }
  }

  /** unshare_sighand: t, alone in its group, has a sighand that nobody else has. */
  lemma SighandChanges(x: Fields, t: nat, n: nat)
    requires Groups(x) && t in x.tgid && Single(x, t)
    requires forall i :: i in x.hand && i != t ==> x.hand[i] != n
    ensures Groups(x.(hand := x.hand[t := n], midExec := x.midExec - {t}))
  {
    var y := x.(hand := x.hand[t := n], midExec := x.midExec - {t});
    forall i | i in y.tgid ensures IsTask(y, i) { assert IsTask(x, i); }
    forall i, j | IsTask(y, i) && IsTask(y, j) ensures PairOk(y, i, j) {
      assert IsTask(x, i) && IsTask(x, j);
      assert PairOk(x, i, j);
    }
  }

  lemma MmGoes(x: Fields, t: nat)
    requires Groups(x)
    ensures Groups(x.(mm := x.mm - {t}, zombies := x.zombies + {t}))
  {
    var y := x.(mm := x.mm - {t}, zombies := x.zombies + {t});
    forall i | i in y.tgid ensures IsTask(y, i) { assert IsTask(x, i); }
    forall i, j | IsTask(y, i) && IsTask(y, j) ensures PairOk(y, i, j) {
      assert IsTask(x, i) && IsTask(x, j);
      assert PairOk(x, i, j);
    }
  }

  function Removed(x: Fields, t: nat): Fields {
    Fields(x.tgid - {t}, x.hand - {t}, x.sig - {t}, x.mm, x.kv - {t}, x.midExec - {t}, x.zombies - {t})
  }

  lemma TaskGoes(x: Fields, t: nat)
    requires Groups(x) && t !in x.mm
    ensures Groups(Removed(x, t))
  {
    var y := Removed(x, t);
    forall i | i in y.tgid ensures IsTask(y, i) { assert IsTask(x, i); }
    forall i, j | IsTask(y, i) && IsTask(y, j) ensures PairOk(y, i, j) {
      assert IsTask(x, i) && IsTask(x, j);
      assert PairOk(x, i, j);
    }
  }

  // ----- Each part, when task t moves to pc p -----

  lemma SighandsStep(pc: map<nat, Pc>, x: Table, y: Table, t: nat, p: Pc)
    requires Sighands(pc, x) && t in pc && TableOk(y) && Rest(x, y, t, t) && SighandLocal(p, t, y)
    ensures Sighands(pc[t := p], y)
  {
    hide TableOk;
    forall u | u in pc && u != t ensures SighandLocal(pc[u], u, y) {
      assert SighandLocal(pc[u], u, x);
      assert u in x.copy ==> Holders.Has(x, u, x.copy[u]);
    }
  }

  lemma SignalsStep(pc: map<nat, Pc>, x: Table, y: Table, mid: set<nat>, t: nat, p: Pc)
    requires Signals(pc, x, mid) && t in pc && TableOk(y) && Rest(x, y, t, t) && SignalLocal(p, t, y)
    requires t !in mid
    ensures Signals(pc[t := p], y, mid)
  {
    hide TableOk;
    forall u | u in pc && u != t ensures SignalLocal(pc[u], u, y) {
      assert SignalLocal(pc[u], u, x);
      assert u in x.copy ==> Holders.Has(x, u, x.copy[u]);
    }
    forall u | u in mid ensures Alone(y, u) { assert Alone(x, u) && Holders.Has(x, u, x.of[u]); }
  }

  lemma MmsStep(pc: map<nat, Pc>, x: Table, y: Table, t: nat, p: Pc)
    requires Mms(pc, x) && t in pc && TableOk(y) && Rest(x, y, t, t) && MmLocal(p, t, y)
    ensures Mms(pc[t := p], y)
  {
    hide TableOk, Sole;
    forall u | u in pc && u != t ensures MmLocal(pc[u], u, y) { assert MmLocal(pc[u], u, x); }
  }

  /** The tables a step does not touch only need to suit the new pc. */
  lemma SighandsPc(pc: map<nat, Pc>, x: Table, t: nat, p: Pc)
    requires Sighands(pc, x) && t in pc && SighandLocal(p, t, x)
    ensures Sighands(pc[t := p], x)
  {
    hide TableOk;
  }

  lemma SignalsPc(pc: map<nat, Pc>, x: Table, mid: set<nat>, t: nat, p: Pc)
    requires Signals(pc, x, mid) && t in pc && SignalLocal(p, t, x)
    ensures Signals(pc[t := p], x, mid)
  {
    hide TableOk, Alone;
  }

  lemma LivesPc(pc: map<nat, Pc>, sig: Table, live: Table, t: nat, p: Pc)
    requires Lives(pc, sig, live) && t in pc && (p.Exiting? <==> pc[t].Exiting?)
    ensures Lives(pc[t := p], sig, live)
  {
  }

  lemma MmsPc(pc: map<nat, Pc>, x: Table, t: nat, p: Pc)
    requires Mms(pc, x) && t in pc && MmLocal(p, t, x)
    ensures Mms(pc[t := p], x)
  {
    hide TableOk;
  }

  lemma KvsPc(pc: map<nat, Pc>, kv: map<nat, nat>, newKv: map<nat, nat>, stores: set<nat>, t: nat, p: Pc)
    requires Kvs(pc, kv, newKv, stores) && t in pc && KvLocal(p, t, kv, newKv)
    ensures Kvs(pc[t := p], kv, newKv, stores)
  {
    hide KvLocal;
  }

  lemma LeadersPc(pc: map<nat, Pc>, tgid: map<nat, nat>, t: nat, p: Pc)
    requires Leaders(pc, tgid) && t in pc
    ensures Leaders(pc[t := p], tgid)
  {
    hide Leads;
  }

  lemma NotATask(pc: map<nat, Pc>, tgid: map<nat, nat>, n: nat)
    requires Leaders(pc, tgid)
    ensures n in tgid <==> n in pc
  {
    hide Leads;
  }

  lemma PidsPc(pc: map<nat, Pc>, newPid: map<nat, nat>, t: nat, p: Pc)
    requires Pids(pc, newPid) && t in pc && PidLocal(p, t, newPid)
    ensures Pids(pc[t := p], newPid)
  {
    hide PidLocal;
  }

  lemma MarksPc(pc: map<nat, Pc>, midExec: set<nat>, zombies: set<nat>, t: nat, p: Pc)
    requires Marks(pc, midExec, zombies) && t in pc
    requires (t in midExec ==> p.User? || p.Exiting?) && (t in zombies ==> p.Exiting?)
    ensures Marks(pc[t := p], midExec, zombies)
  {
  }

  lemma KvsAdd(pc: map<nat, Pc>, kv: map<nat, nat>, newKv: map<nat, nat>, stores: set<nat>, t: nat, p: Pc, s: nat)
    requires Kvs(pc, kv, newKv, stores) && t in pc && t !in newKv
    requires p.Build? && p.k.AtAttach? && pc[t].Build?
    requires if p.f.thread then t in kv && s == kv[t] else s !in stores
    ensures Kvs(pc[t := p], kv, newKv[t := s], stores + {s})
  {
    var newKv' := newKv[t := s];
    forall u | u in pc && u != t ensures KvLocal(pc[u], u, kv, newKv') { assert KvLocal(pc[u], u, kv, newKv); }
  }

  lemma KvsDrop(pc: map<nat, Pc>, kv: map<nat, nat>, newKv: map<nat, nat>, stores: set<nat>, t: nat, p: Pc)
    requires Kvs(pc, kv, newKv, stores) && t in pc && p.Undo?
    ensures Kvs(pc[t := p], kv, newKv - {t}, stores)
  {
    var newKv' := newKv - {t};
    forall u | u in pc && u != t ensures KvLocal(pc[u], u, kv, newKv') { assert KvLocal(pc[u], u, kv, newKv); }
  }

  lemma PidsAdd(pc: map<nat, Pc>, newPid: map<nat, nat>, t: nat, p: Pc, n: nat)
    requires Pids(pc, newPid) && t in pc && t !in newPid && PidLocal(p, t, newPid[t := n])
    requires n !in pc && forall u :: u in newPid ==> newPid[u] != n
    ensures Pids(pc[t := p], newPid[t := n])
  {
    forall u | u in pc && u != t ensures PidLocal(pc[u], u, newPid[t := n]) { assert PidLocal(pc[u], u, newPid); }
  }

  lemma PidsDrop(pc: map<nat, Pc>, newPid: map<nat, nat>, t: nat, p: Pc)
    requires Pids(pc, newPid) && t in pc && PidLocal(p, t, newPid - {t})
    ensures Pids(pc[t := p], newPid - {t})
  {
    forall u | u in pc && u != t ensures PidLocal(pc[u], u, newPid - {t}) { assert PidLocal(pc[u], u, newPid); }
  }

  // ----- Each step keeps the invariant -----

  /** What holds of the acting task. */
  lemma Mine(st: State, t: nat)
    requires Inv(st) && t in st.pc
    ensures TableOk(st.sighand) && TableOk(st.signal) && TableOk(st.mm) && TableOk(st.live)
    ensures SighandLocal(st.pc[t], t, st.sighand) && MmLocal(st.pc[t], t, st.mm)
    ensures SignalLocal(st.pc[t], t, st.signal) && SignalLocal(st.pc[t], t, st.live)
    ensures PidLocal(st.pc[t], t, st.newPid) && KvLocal(st.pc[t], t, st.kv, st.newKv)
    ensures t in st.tgid && t in st.sighand.of && t in st.signal.of && (t in st.live.of <==> !st.pc[t].Exiting?)
    ensures t in st.live.of ==> st.live.of[t] == st.signal.of[t]
    ensures (t in st.midExec ==> st.pc[t].User? || st.pc[t].Exiting?) && (t in st.zombies ==> st.pc[t].Exiting?)
    ensures t in st.midExec ==> Alone(st.signal, t)
  {
    hide TableOk, SighandLocal, SignalLocal, MmLocal, PidLocal, KvLocal, Leads, Alone;
    assert IsTask(FieldsOf(st), t);
  }

  /** A step of a clone that leaves the fields alone keeps the rest, the tables it works on apart. */
  lemma PcKeeps(st: State, t: nat, p: Pc)
    requires Inv(st) && t in st.pc && PidLocal(p, t, st.newPid) && KvLocal(p, t, st.kv, st.newKv)
    ensures Kvs(st.pc[t := p], st.kv, st.newKv, st.stores) && Pids(st.pc[t := p], st.newPid)
  {
    hide Groups, Sighands, Signals, Lives, Mms, Kvs, Leaders, Pids, Marks, Gone, Mortals, KvLocal, PidLocal;
    KvsPc(st.pc, st.kv, st.newKv, st.stores, t, p);
    PidsPc(st.pc, st.newPid, t, p);
  }

  /** What every step of a clone keeps: the fields, the tasks and their marks. */
  lemma CloneFrame(st: State, t: nat, p: Pc)
    requires Inv(st) && t in st.pc && !st.pc[t].Exiting? && !p.Exiting? && t !in st.midExec
    ensures Groups(FieldsOf(st)) && Leaders(st.pc[t := p], st.tgid) && Marks(st.pc[t := p], st.midExec, st.zombies)
    ensures Lives(st.pc[t := p], st.signal, st.live) && Mortals(st.pc[t := p], st.tgid)
    ensures Gone(st.mm.of, st.zombies)
  {
    hide Groups, Sighands, Signals, Lives, Mms, Kvs, Leaders, Pids, Marks, Gone, Mortals, TableOk;
    Mine(st, t);
    LeadersPc(st.pc, st.tgid, t, p);
    MarksPc(st.pc, st.midExec, st.zombies, t, p);
    LivesPc(st.pc, st.signal, st.live, t, p);
    MortalsPc(st.pc, st.tgid, t, p);
  }

  lemma MortalsPc(pc: map<nat, Pc>, tgid: map<nat, nat>, t: nat, p: Pc)
    requires Mortals(pc, tgid) && t in tgid && (p.Exiting? ==> tgid[t] != 0)
    ensures Mortals(pc[t := p], tgid)
  {
  }

  lemma SighandKeeps(st: State, a: Action)
    requires Inv(st) && Enabled(st, a) && a.CopySighand?
    ensures Inv(Do(st, a))
  {
    hide Groups, Sighands, Signals, Lives, Mms, Kvs, Leaders, Pids, Marks, Gone, Mortals, TableOk, Rest;
    var t, f := a.t, st.pc[a.t].f;
    Mine(st, t);
    if f.sighand { HoldOk(st.sighand, t, true, a.n); } else { FreshOk(st.sighand, t, a.n); }
    var y := Acquire(st.sighand, t, f.sighand, a.n).value;
    var p := st.pc[t].(k := AtSignal);
    SighandsStep(st.pc, st.sighand, y, t, p);
    SignalsPc(st.pc, st.signal, st.midExec, t, p);
    SignalsPc(st.pc, st.live, {}, t, p);
    MmsPc(st.pc, st.mm, t, p);
    PcKeeps(st, t, p);
    CloneFrame(st, t, p);
  }

  /** A signal_struct that is not live is not counted in live either. */
  lemma LiveWithin(sig: Table, live: Table, n: nat)
    requires TableOk(sig) && TableOk(live) && live.copy == sig.copy && n !in sig.count
    requires forall t :: t in live.of ==> t in sig.of && live.of[t] == sig.of[t]
    ensures n !in live.count
  {
    LiveIffHeld(sig, n);
    LiveIffHeld(live, n);
    forall t ensures !Holders.Has(live, t, n) { assert !Holders.Has(sig, t, n); }
  }

  lemma LivesFresh(pc: map<nat, Pc>, sig: Table, live: Table, t: nat, n: nat)
    requires Lives(pc, sig, live) && TableOk(sig) && TableOk(live) && n !in sig.count
    ensures n !in live.count && Lives(pc, Fresh(sig, t, n), Fresh(live, t, n))
  {
    LiveWithin(sig, live, n);
  }

  lemma SignalKeeps(st: State, a: Action)
    requires Inv(st) && Enabled(st, a) && a.CopySignal?
    ensures Inv(Do(st, a))
  {
    hide Groups, Sighands, Signals, Lives, Mms, Kvs, Leaders, Pids, Marks, Gone, Mortals, TableOk, Rest;
    var t, f := a.t, st.pc[a.t].f;
    Mine(st, t);
    var p := st.pc[t].(k := AtMm);
    SighandsPc(st.pc, st.sighand, t, p);
    MmsPc(st.pc, st.mm, t, p);
    PcKeeps(st, t, p);
    CloneFrame(st, t, p);
    if f.thread {
      SignalsPc(st.pc, st.signal, st.midExec, t, p);
      SignalsPc(st.pc, st.live, {}, t, p);
    } else {
      LivesFresh(st.pc[t := p], st.signal, st.live, t, a.n);
      FreshOk(st.signal, t, a.n);
      FreshOk(st.live, t, a.n);
      SignalsStep(st.pc, st.signal, Fresh(st.signal, t, a.n), st.midExec, t, p);
      SignalsStep(st.pc, st.live, Fresh(st.live, t, a.n), {}, t, p);
    }
  }

  lemma MmKeeps(st: State, a: Action)
    requires Inv(st) && Enabled(st, a) && a.CopyMm?
    ensures Inv(Do(st, a))
  {
    hide Groups, Sighands, Signals, Lives, Mms, Kvs, Leaders, Pids, Marks, Gone, Mortals, TableOk, Rest;
    var t, f := a.t, st.pc[a.t].f;
    Mine(st, t);
    var p := st.pc[t].(k := AtPid);
    SighandsPc(st.pc, st.sighand, t, p);
    SignalsPc(st.pc, st.signal, st.midExec, t, p);
    SignalsPc(st.pc, st.live, {}, t, p);
    if t !in st.mm.of {
      MmsPc(st.pc, st.mm, t, p);
    } else {
      if f.vm { HoldOk(st.mm, t, true, a.n); } else { FreshOk(st.mm, t, a.n); }
      MmsStep(st.pc, st.mm, Acquire(st.mm, t, f.vm, a.n).value, t, p);
    }
    PcKeeps(st, t, p);
    CloneFrame(st, t, p);
  }

  /** The tables, when a step of a clone touches none of them. */
  lemma TablesPc(st: State, t: nat, p: Pc)
    requires Inv(st) && t in st.pc && SighandLocal(p, t, st.sighand) && MmLocal(p, t, st.mm)
    requires SignalLocal(p, t, st.signal) && SignalLocal(p, t, st.live)
    ensures Sighands(st.pc[t := p], st.sighand) && Mms(st.pc[t := p], st.mm)
    ensures Signals(st.pc[t := p], st.signal, st.midExec) && Signals(st.pc[t := p], st.live, {})
  {
    hide Groups, Sighands, Signals, Lives, Mms, Kvs, Leaders, Pids, Marks, Gone, Mortals;
    hide SighandLocal, SignalLocal, MmLocal;
    SighandsPc(st.pc, st.sighand, t, p);
    SignalsPc(st.pc, st.signal, st.midExec, t, p);
    SignalsPc(st.pc, st.live, {}, t, p);
    MmsPc(st.pc, st.mm, t, p);
  }

  lemma BeginFailKeep(st: State, a: Action)
    requires Inv(st) && Enabled(st, a) && (a.Begin? || a.Fail?)
    ensures Inv(Do(st, a))
  {
    hide Groups, Sighands, Signals, Lives, Mms, Kvs, Leaders, Pids, Marks, Gone, Mortals, TableOk, Rest;
    var t, p := a.t, Do(st, a).pc[a.t];
    Mine(st, t);
    TablesPc(st, t, p);
    PcKeeps(st, t, p);
    CloneFrame(st, t, p);
  }

  lemma PidKeeps(st: State, a: Action)
    requires Inv(st) && Enabled(st, a) && a.AllocPid?
    ensures Inv(Do(st, a))
  {
    hide Groups, Sighands, Signals, Lives, Mms, Kvs, Leaders, Pids, Marks, Gone, Mortals, TableOk, Rest;
    var t, p := a.t, Do(st, a).pc[a.t];
    Mine(st, t);
    TablesPc(st, t, p);
    CloneFrame(st, t, p);
    NotATask(st.pc, st.tgid, a.p);
    PidsAdd(st.pc, st.newPid, t, p, a.p);
    KvsPc(st.pc, st.kv, st.newKv, st.stores, t, p);
  }

  lemma KvKeeps(st: State, a: Action)
    requires Inv(st) && Enabled(st, a) && a.InitKv?
    ensures Inv(Do(st, a))
  {
    hide Groups, Sighands, Signals, Lives, Mms, Kvs, Leaders, Pids, Marks, Gone, Mortals, TableOk, Rest;
    var t, p := a.t, Do(st, a).pc[a.t];
    Mine(st, t);
    TablesPc(st, t, p);
    CloneFrame(st, t, p);
    PidsPc(st.pc, st.newPid, t, p);
    if !p.f.thread {
      KvsAdd(st.pc, st.kv, st.newKv, st.stores, t, p, a.s);
    } else if t in st.kv {
      KvsAdd(st.pc, st.kv, st.newKv, st.stores, t, p, st.kv[t]);
      assert st.stores + {st.kv[t]} == st.stores by { StoredKv(st, t); }
    } else {
      KvsPc(st.pc, st.kv, st.newKv, st.stores, t, p);
    }
  }

  lemma StoredKv(st: State, t: nat)
    requires Kvs(st.pc, st.kv, st.newKv, st.stores) && t in st.kv
    ensures st.kv[t] in st.stores
  {
  }

  lemma LivesDiscard(pc: map<nat, Pc>, sig: Table, live: Table, t: nat)
    requires Lives(pc, sig, live) && Discard(sig, t).Some? && Discard(live, t).Some?
    ensures Lives(pc, Discard(sig, t).value, Discard(live, t).value)
  {
  }

  lemma UnwindSignal(st: State, t: nat)
    requires Inv(st) && t in st.pc && st.pc[t].Undo? && st.pc[t].at.CleanSignal?
    ensures Inv(DoUnwind(st, t))
  {
    hide Groups, Sighands, Signals, Lives, Mms, Kvs, Leaders, Pids, Marks, Gone, Mortals, TableOk, Rest;
    var f, p := st.pc[t].f, Undo(st.pc[t].f, CleanSighand);
    Mine(st, t);
    SighandsPc(st.pc, st.sighand, t, p);
    MmsPc(st.pc, st.mm, t, p);
    PcKeeps(st, t, p);
    CloneFrame(st, t, p);
    if f.thread {
      SignalsPc(st.pc, st.signal, st.midExec, t, p);
      SignalsPc(st.pc, st.live, {}, t, p);
    } else {
      DiscardIsPut(st.signal, t);
      DiscardIsPut(st.live, t);
      PutOk(st.signal, t);
      PutOk(st.live, t);
      LivesDiscard(st.pc[t := p], st.signal, st.live, t);
      SignalsStep(st.pc, st.signal, Put(st.signal, t).value, st.midExec, t, p);
      SignalsStep(st.pc, st.live, Put(st.live, t).value, {}, t, p);
    }
  }

  lemma UnwindKeeps(st: State, a: Action)
    requires Inv(st) && Enabled(st, a) && a.Unwind?
    ensures Inv(Do(st, a))
  {
    hide Groups, Sighands, Signals, Lives, Mms, Kvs, Leaders, Pids, Marks, Gone, Mortals, TableOk, Rest;
    var t, f, at := a.t, st.pc[a.t].f, st.pc[a.t].at;
    if at.CleanSignal? {
      UnwindSignal(st, t);
      return;
    }
    Mine(st, t);
    var p := if at.CleanPid? then Undo(f, CleanMm) else if at.CleanMm? then Undo(f, CleanSignal) else User;
    SignalsPc(st.pc, st.signal, st.midExec, t, p);
    SignalsPc(st.pc, st.live, {}, t, p);
    CloneFrame(st, t, p);
    if at.CleanSighand? {
      PutOk(st.sighand, t);
      SighandsStep(st.pc, st.sighand, Put(st.sighand, t).value, t, p);
    } else {
      SighandsPc(st.pc, st.sighand, t, p);
    }
    if at.CleanMm? {
      PutOk(st.mm, t);
      MmsStep(st.pc, st.mm, Put(st.mm, t).value, t, p);
    } else {
      MmsPc(st.pc, st.mm, t, p);
    }
    if at.CleanPid? {
      PidsDrop(st.pc, st.newPid, t, p);
      KvsDrop(st.pc, st.kv, st.newKv, st.stores, t, p);
    } else {
      PcKeeps(st, t, p);
    }
  }

  // ----- The attachment -----

  function Attached(pc: map<nat, Pc>, t: nat, c: nat): map<nat, Pc> {
    pc[t := User][c := User]
  }

  lemma SighandsAttach(pc: map<nat, Pc>, x: Table, y: Table, t: nat, c: nat)
    requires Sighands(pc, x) && t in pc && c !in pc && TableOk(y) && Rest(x, y, t, c) && t !in y.copy && c !in x.copy
    ensures Sighands(Attached(pc, t, c), y)
  {
    hide TableOk;
    forall u | u in pc && u != t ensures SighandLocal(pc[u], u, y) {
      assert SighandLocal(pc[u], u, x);
      assert u in x.copy ==> Holders.Has(x, u, x.copy[u]);
    }
  }

  lemma SignalsAttach(pc: map<nat, Pc>, x: Table, y: Table, mid: set<nat>, t: nat, c: nat)
    requires Signals(pc, x, mid) && t in pc && c !in pc && TableOk(y) && Rest(x, y, t, c)
    requires t !in y.copy && c !in x.copy
    requires t !in mid && c !in mid
    ensures Signals(Attached(pc, t, c), y, mid)
  {
    hide TableOk;
    forall u | u in pc && u != t ensures SignalLocal(pc[u], u, y) {
      assert SignalLocal(pc[u], u, x);
      assert u in x.copy ==> Holders.Has(x, u, x.copy[u]);
    }
    forall u | u in mid ensures Alone(y, u) { assert Alone(x, u) && Holders.Has(x, u, x.of[u]); }
  }

  lemma LivesAttach(pc: map<nat, Pc>, sig: Table, live: Table, t: nat, c: nat, thread: bool)
    requires Lives(pc, sig, live) && t in pc && !pc[t].Exiting? && c !in pc && t in sig.of && c !in sig.of
    requires Enroll(sig, t, c, thread).Some? && Enroll(live, t, c, thread).Some?
    ensures Lives(Attached(pc, t, c), Enroll(sig, t, c, thread).value, Enroll(live, t, c, thread).value)
  {
  }

  lemma MmsAttach(pc: map<nat, Pc>, x: Table, y: Table, t: nat, c: nat)
    requires Mms(pc, x) && t in pc && c !in pc && TableOk(y) && Rest(x, y, t, c) && t !in y.copy && c !in x.copy
    ensures Mms(Attached(pc, t, c), y)
  {
    hide TableOk, Sole;
    forall u | u in pc && u != t ensures MmLocal(pc[u], u, y) { assert MmLocal(pc[u], u, x); }
  }

  lemma KvsAttach(pc: map<nat, Pc>, kv: map<nat, nat>, newKv: map<nat, nat>, stores: set<nat>, t: nat, c: nat)
    requires Kvs(pc, kv, newKv, stores) && t in pc && c !in pc
    ensures Kvs(Attached(pc, t, c), if t in newKv then kv[c := newKv[t]] else kv, newKv - {t}, stores)
  {
    var kv', newKv' := if t in newKv then kv[c := newKv[t]] else kv, newKv - {t};
    forall u | u in pc && u != t ensures KvLocal(pc[u], u, kv', newKv') { assert KvLocal(pc[u], u, kv, newKv); }
  }

  lemma PidsAttach(pc: map<nat, Pc>, newPid: map<nat, nat>, t: nat)
    requires Pids(pc, newPid) && t in pc && t in newPid
    ensures newPid[t] !in pc && Pids(Attached(pc, t, newPid[t]), newPid - {t})
  {
    forall u | u in pc && u != t ensures PidLocal(pc[u], u, newPid - {t}) { assert PidLocal(pc[u], u, newPid); }
  }

  lemma LeadersAttach(pc: map<nat, Pc>, tgid: map<nat, nat>, t: nat, c: nat, g: nat)
    requires Leaders(pc, tgid) && t in pc && c !in pc && (g == tgid[t] || g == c || g == 0)
    ensures Leaders(Attached(pc, t, c), tgid[c := g])
  {
    var tgid' := tgid[c := g];
    assert Leads(tgid, tgid[t]);
    forall i | i in tgid' ensures Leads(tgid', tgid'[i]) { if i != c { assert Leads(tgid, tgid[i]); } }
  }

  lemma MarksAttach(pc: map<nat, Pc>, midExec: set<nat>, zombies: set<nat>, t: nat, c: nat)
    requires Marks(pc, midExec, zombies) && t in pc && pc[t].Build? && c !in pc
    ensures Marks(Attached(pc, t, c), midExec, zombies)
    ensures c !in midExec && c !in zombies && t !in midExec && t !in zombies
  {
  }

  lemma GoneAttach(mm: map<nat, nat>, mm': map<nat, nat>, zombies: set<nat>, c: nat)
    requires Gone(mm, zombies) && c !in zombies && forall t :: t in mm' && t != c ==> t in mm
    ensures Gone(mm', zombies)
  {
  }

  lemma MortalsAttach(pc: map<nat, Pc>, tgid: map<nat, nat>, t: nat, c: nat, g: nat)
    requires Mortals(pc, tgid)
    ensures Mortals(Attached(pc, t, c), tgid[c := g])
  {
  }

  lemma NoFields(st: State, c: nat)
    requires Inv(st) && c !in st.pc
    ensures c !in st.tgid && c !in st.sighand.of && c !in st.sighand.copy && c !in st.signal.of && c !in st.signal.copy
    ensures c !in st.live.of && c !in st.live.copy && c !in st.mm.of && c !in st.mm.copy
    ensures c !in st.kv && c !in st.newKv
  {
    hide TableOk, SighandLocal, SignalLocal, MmLocal, PidLocal, KvLocal, Groups, Leads, Alone;
  }

  lemma EnrollOk(x: Table, t: nat, c: nat, thread: bool)
    requires TableOk(x) && t in x.of && c !in x.of && c != t && c !in x.copy && (t in x.copy <==> !thread)
    ensures var y := Enroll(x, t, c, thread);
      y.Some? && TableOk(y.value) && Rest(x, y.value, t, c) && t !in y.value.copy
  {
    hide TableOk, Rest;
    if thread { JoinOk(x, t, c); } else { GiveOk(x, t, c); }
  }

  lemma AttachTables(st: State, t: nat)
    requires Inv(st) && At(st, t, AtAttach)
    ensures t in st.newPid && !DoAttach(st, t).crashed
    ensures var st' := DoAttach(st, t);
            && Sighands(st'.pc, st'.sighand) && Mms(st'.pc, st'.mm)
            && Signals(st'.pc, st'.signal, st'.midExec) && Signals(st'.pc, st'.live, {})
            && Lives(st'.pc, st'.signal, st'.live)
  {
    hide Groups, Sighands, Signals, Lives, Mms, Kvs, Leaders, Pids, Marks, Gone, Mortals, TableOk, Rest;
    Mine(st, t);
    var c, f := st.newPid[t], st.pc[t].f;
    PidsAttach(st.pc, st.newPid, t);
    NoFields(st, c);
    MarksAttach(st.pc, st.midExec, st.zombies, t, c);
    GiveOk(st.sighand, t, c);
    EnrollOk(st.signal, t, c, f.thread);
    EnrollOk(st.live, t, c, f.thread);
    if t in st.mm.copy { GiveOk(st.mm, t, c); } else { RestSelf(st.mm, t); RestMore(st.mm, st.mm, t, c); }
    hide Enroll;
    var st' := DoAttach(st, t);
    SighandsAttach(st.pc, st.sighand, st'.sighand, t, c);
    SignalsAttach(st.pc, st.signal, st'.signal, st.midExec, t, c);
    SignalsAttach(st.pc, st.live, st'.live, {}, t, c);
    LivesAttach(st.pc, st.signal, st.live, t, c, f.thread);
    MmsAttach(st.pc, st.mm, st'.mm, t, c);
  }

  lemma RestMore(x: Table, y: Table, t: nat, c: nat)
    requires Rest(x, y, t, t)
    ensures Rest(x, y, t, c)
  {
  }

  lemma AttachThread(st: State, t: nat)
    requires Inv(st) && At(st, t, AtAttach) && st.pc[t].f.thread
    requires t in st.newPid && st.newPid[t] !in st.pc && !DoAttach(st, t).crashed
    ensures Groups(FieldsOf(DoAttach(st, t)))
  {
    hide Groups, Sighands, Signals, Lives, Mms, Kvs, Leaders, Pids, Marks, Gone, Mortals, TableOk, Rest;
    Mine(st, t);
    NoFields(st, st.newPid[t]);
    MarksAttach(st.pc, st.midExec, st.zombies, t, st.newPid[t]);
    ThreadJoins(FieldsOf(st), FieldsOf(DoAttach(st, t)), t, st.newPid[t]);
  }

  lemma AttachProcess(st: State, t: nat)
    requires Inv(st) && At(st, t, AtAttach) && !st.pc[t].f.thread
    requires t in st.newPid && st.newPid[t] !in st.pc && !DoAttach(st, t).crashed
    ensures Groups(FieldsOf(DoAttach(st, t)))
  {
    hide Groups, Sighands, Signals, Lives, Mms, Kvs, Leaders, Pids, Marks, Gone, Mortals, TableOk, Rest;
    Mine(st, t);
    var c := st.newPid[t];
    NoFields(st, c);
    MarksAttach(st.pc, st.midExec, st.zombies, t, c);
    var x, y := FieldsOf(st), FieldsOf(DoAttach(st, t));
    forall i | i in x.sig ensures x.sig[i] != y.sig[c] { SoleCopy(st.signal, t, i); }
    forall i | i in x.tgid ensures x.tgid[i] != c { LeaderIsTask(st.pc, st.tgid, i); }
    if !st.pc[t].f.sighand { forall i | i in x.hand ensures x.hand[i] != y.hand[c] { SoleCopy(st.sighand, t, i); } }
    ProcessJoins(x, y, t, c);
  }

  lemma LeaderIsTask(pc: map<nat, Pc>, tgid: map<nat, nat>, i: nat)
    requires Leaders(pc, tgid) && i in tgid
    ensures tgid[i] in pc
  {
    assert Leads(tgid, tgid[i]);
  }

  lemma AttachKeeps(st: State, a: Action)
    requires Inv(st) && Enabled(st, a) && a.Attach?
    ensures Inv(Do(st, a))
  {
    hide Groups, Sighands, Signals, Lives, Mms, Kvs, Leaders, Pids, Marks, Gone, Mortals, TableOk, Rest;
    var t := a.t;
    AttachTables(st, t);
    PidsAttach(st.pc, st.newPid, t);
    if st.pc[t].f.thread { AttachThread(st, t); } else { AttachProcess(st, t); }
    Mine(st, t);
    var c := st.newPid[t];
    MarksAttach(st.pc, st.midExec, st.zombies, t, c);
    KvsAttach(st.pc, st.kv, st.newKv, st.stores, t, c);
    LeadersAttach(st.pc, st.tgid, t, c, TgidFor(st, t, c));
    MortalsAttach(st.pc, st.tgid, t, c, TgidFor(st, t, c));
    GoneAttach(st.mm.of, DoAttach(st, t).mm.of, st.zombies, c);
  }

  // ----- Exec -----

  /** A thread group whose signal_struct counts one thread has one task. */
  lemma AloneIsSingle(st: State, t: nat)
    requires TableOk(st.signal) && Alone(st.signal, t)
    ensures Single(FieldsOf(st), t)
  {
    hide TableOk, Cnt;
    forall i | i in st.signal.of && i != t ensures st.signal.of[i] != st.signal.of[t] { SoleUser(st.signal, t, i); }
  }

  lemma SignalsMid(pc: map<nat, Pc>, x: Table, mid: set<nat>, mid': set<nat>)
    requires Signals(pc, x, mid) && forall t :: t in mid' ==> t in mid || Alone(x, t)
    ensures Signals(pc, x, mid')
  {
    hide TableOk, Alone;
  }

  lemma ExecMmKeeps(st: State, a: Action)
    requires Inv(st) && Enabled(st, a) && a.ExecMm?
    ensures Inv(Do(st, a))
  {
    hide Groups, Sighands, Signals, Lives, Mms, Kvs, Leaders, Pids, Marks, Gone, Mortals, TableOk, Rest;
    var t := a.t;
    Mine(st, t);
    AloneIsSingle(st, t);
    assert st.pc[t := User] == st.pc;
    ReplaceOk(st.mm, t, a.n);
    MmsStep(st.pc, st.mm, Replace(st.mm, t, a.n).value, t, User);
    MmChanges(FieldsOf(st), t, a.n);
    SignalsMid(st.pc, st.signal, st.midExec, st.midExec + {t});
    MarksAre(st.pc, st.midExec, st.zombies, st.midExec + {t}, st.zombies, t);
    GoneAttach(st.mm.of, st.mm.of[t := a.n], st.zombies, t);
  }

  lemma MarksAre(pc: map<nat, Pc>, midExec: set<nat>, zombies: set<nat>, midExec': set<nat>, zombies': set<nat>, t: nat)
    requires Marks(pc, midExec, zombies) && t in pc && midExec' <= midExec + {t} && zombies' <= zombies + {t}
    requires (t in midExec' ==> pc[t].User? || pc[t].Exiting?) && (t in zombies' ==> pc[t].Exiting?)
    ensures Marks(pc, midExec', zombies')
  {
  }

  lemma ExecSighandKeeps(st: State, a: Action)
    requires Inv(st) && Enabled(st, a) && a.ExecSighand?
    ensures Inv(Do(st, a))
  {
    hide Groups, Sighands, Signals, Lives, Mms, Kvs, Leaders, Pids, Marks, Gone, Mortals, TableOk, Rest;
    var t, x := a.t, FieldsOf(st);
    Mine(st, t);
    AloneIsSingle(st, t);
    assert st.pc[t := User] == st.pc;
    SignalsMid(st.pc, st.signal, st.midExec, st.midExec - {t});
    MarksAre(st.pc, st.midExec, st.zombies, st.midExec - {t}, st.zombies, t);
    if Alone(st.sighand, t) {
      forall i | i in x.hand && i != t ensures x.hand[i] != x.hand[t] { SoleUser(st.sighand, t, i); }
      assert x.hand[t := x.hand[t]] == x.hand;
      SighandChanges(x, t, x.hand[t]);
    } else {
      ReplaceOk(st.sighand, t, a.n);
      SighandsStep(st.pc, st.sighand, Replace(st.sighand, t, a.n).value, t, User);
      SighandChanges(x, t, a.n);
    }
  }

  // ----- Exit -----

  lemma LivesLeave(pc: map<nat, Pc>, sig: Table, live: Table, live': Table, t: nat)
    requires Lives(pc, sig, live) && t in pc && live'.of == live.of - {t} && live'.copy == live.copy
    ensures Lives(pc[t := Exiting], sig, live')
  {
  }

  lemma StartExitKeeps(st: State, a: Action)
    requires Inv(st) && Enabled(st, a) && a.StartExit?
    ensures Inv(Do(st, a))
  {
    hide Groups, Sighands, Signals, Lives, Mms, Kvs, Leaders, Pids, Marks, Gone, Mortals, TableOk, Rest;
    var t := a.t;
    Mine(st, t);
    LeaveOk(st.live, t);
    SighandsPc(st.pc, st.sighand, t, Exiting);
    SignalsPc(st.pc, st.signal, st.midExec, t, Exiting);
    SignalsStep(st.pc, st.live, Leave(st.live, t).value, {}, t, Exiting);
    LivesLeave(st.pc, st.signal, st.live, Leave(st.live, t).value, t);
    MmsPc(st.pc, st.mm, t, Exiting);
    PcKeeps(st, t, Exiting);
    LeadersPc(st.pc, st.tgid, t, Exiting);
    MarksPc(st.pc, st.midExec, st.zombies, t, Exiting);
    MortalsPc(st.pc, st.tgid, t, Exiting);
  }

  lemma GoneExit(mm: map<nat, nat>, zombies: set<nat>, t: nat)
    requires Gone(mm, zombies)
    ensures Gone(mm - {t}, zombies + {t})
  {
  }

  lemma ExitMmKeeps(st: State, a: Action)
    requires Inv(st) && Enabled(st, a) && a.ExitMm?
    ensures Inv(Do(st, a))
  {
    hide Groups, Sighands, Signals, Lives, Mms, Kvs, Leaders, Pids, Marks, Gone, Mortals, TableOk, Rest;
    var t := a.t;
    Mine(st, t);
    assert st.pc[t := Exiting] == st.pc;
    MarksAre(st.pc, st.midExec, st.zombies, st.midExec, st.zombies + {t}, t);
    MmGoes(FieldsOf(st), t);
    GoneExit(st.mm.of, st.zombies, t);
    if t in st.mm.of {
      LeaveOk(st.mm, t);
      MmsStep(st.pc, st.mm, Leave(st.mm, t).value, t, Exiting);
    } else {
      assert st.mm.of - {t} == st.mm.of;
    }
  }

  lemma SighandsReap(pc: map<nat, Pc>, x: Table, y: Table, t: nat)
    requires Sighands(pc, x) && t in pc && TableOk(y) && Rest(x, y, t, t) && y.of == x.of - {t} && t !in x.copy
    requires y.copy == x.copy
    ensures Sighands(pc - {t}, y)
  {
    hide TableOk;
    forall u | u in pc && u != t ensures SighandLocal(pc[u], u, y) {
      assert SighandLocal(pc[u], u, x);
      assert u in x.copy ==> Holders.Has(x, u, x.copy[u]);
    }
  }

  lemma SignalsReap(pc: map<nat, Pc>, x: Table, y: Table, mid: set<nat>, t: nat)
    requires Signals(pc, x, mid) && t in pc && TableOk(y) && Rest(x, y, t, t) && y.of == x.of - {t} && t !in x.copy
    requires y.copy == x.copy
    ensures Signals(pc - {t}, y, mid - {t})
  {
    hide TableOk;
    forall u | u in pc && u != t ensures SignalLocal(pc[u], u, y) {
      assert SignalLocal(pc[u], u, x);
      assert u in x.copy ==> Holders.Has(x, u, x.copy[u]);
    }
    forall u | u in mid - {t} ensures Alone(y, u) { assert Alone(x, u) && Holders.Has(x, u, x.of[u]); }
  }

  lemma LivesReap(pc: map<nat, Pc>, sig: Table, live: Table, sig': Table, t: nat)
    requires Lives(pc, sig, live) && t in pc && pc[t].Exiting? && sig'.of == sig.of - {t} && sig'.copy == sig.copy
    ensures Lives(pc - {t}, sig', live)
  {
  }

  /** A table in which an exiting task has nothing. */
  lemma LiveReap(pc: map<nat, Pc>, live: Table, t: nat)
    requires Signals(pc, live, {}) && t in pc && t !in live.of && t !in live.copy
    ensures Signals(pc - {t}, live, {})
  {
    hide TableOk;
  }

  lemma MmsReap(pc: map<nat, Pc>, x: Table, t: nat)
    requires Mms(pc, x) && t in pc && t !in x.of && t !in x.copy
    ensures Mms(pc - {t}, x)
  {
    hide TableOk;
  }

  lemma KvsReap(pc: map<nat, Pc>, kv: map<nat, nat>, newKv: map<nat, nat>, stores: set<nat>, t: nat)
    requires Kvs(pc, kv, newKv, stores) && t in pc && t !in newKv
    ensures Kvs(pc - {t}, kv - {t}, newKv, stores)
  {
    forall u | u in pc && u != t ensures KvLocal(pc[u], u, kv - {t}, newKv) { assert KvLocal(pc[u], u, kv, newKv); }
  }

  lemma PidsReap(pc: map<nat, Pc>, newPid: map<nat, nat>, t: nat)
    requires Pids(pc, newPid) && t in pc && t !in newPid
    ensures Pids(pc - {t}, newPid)
  {
    hide PidLocal;
  }

  lemma LeadersReap(pc: map<nat, Pc>, tgid: map<nat, nat>, t: nat)
    requires Leaders(pc, tgid) && t in pc && t != 0 && forall i :: i in tgid && i != t ==> tgid[i] != t
    ensures Leaders(pc - {t}, tgid - {t})
  {
    var tgid' := tgid - {t};
    forall i | i in tgid' ensures Leads(tgid', tgid'[i]) { assert Leads(tgid, tgid[i]); }
  }

  lemma MarksReap(pc: map<nat, Pc>, midExec: set<nat>, zombies: set<nat>, t: nat)
    requires Marks(pc, midExec, zombies)
    ensures Marks(pc - {t}, midExec - {t}, zombies - {t})
  {
  }

  lemma LeaderLeads(st: State, i: nat)
    requires Inv(st) && i in st.tgid
    ensures Leads(st.tgid, st.tgid[i])
  {
    hide Groups, Sighands, Signals, Lives, Mms, Kvs, Pids, Marks, Gone, Mortals, Leads;
  }

  /** Nobody is left behind with the pid of a reaped task as its thread group. */
  lemma NoneLedBy(st: State, t: nat, i: nat)
    requires Inv(st) && t in st.tgid && (st.tgid[t] != t || Alone(st.signal, t))
    requires st.tgid[t] != 0 && i in st.tgid && i != t
    ensures st.tgid[i] != t
  {
    hide Inv;
    LeaderLeads(st, i);
    if st.tgid[t] == t { OtherGroups(st, t, i); }
  }

  /** A task alone on its signal_struct is alone in its thread group. */
  lemma OtherGroups(st: State, t: nat, i: nat)
    requires Inv(st) && t in st.tgid && Alone(st.signal, t) && st.tgid[t] != 0 && i in st.tgid && i != t
    ensures st.tgid[i] != st.tgid[t]
  {
    hide Inv, TableOk;
    Parts(st, i);
    Parts(st, t);
    AloneIsSingle(st, t);
    assert PairOk(FieldsOf(st), i, t);
  }

  lemma ZombieKnown(st: State, t: nat)
    requires Inv(st) && t in st.zombies
    ensures t in st.pc && st.pc[t].Exiting? && t !in st.mm.of && t in st.tgid && st.tgid[t] != 0 && t != 0
  {
    hide Groups, Sighands, Signals, Lives, Mms, Kvs, Pids, TableOk;
  }

  lemma MortalsReap(pc: map<nat, Pc>, tgid: map<nat, nat>, mm: map<nat, nat>, zombies: set<nat>, t: nat)
    requires Mortals(pc, tgid) && Gone(mm, zombies)
    ensures Mortals(pc - {t}, tgid - {t}) && Gone(mm, zombies - {t})
  {
  }

  lemma ReapTables(st: State, t: nat)
    requires Inv(st) && Enabled(st, Reap(t))
    ensures !DoReap(st, t).crashed
    ensures var st' := DoReap(st, t);
            && Sighands(st'.pc, st'.sighand) && Mms(st'.pc, st'.mm)
            && Signals(st'.pc, st'.signal, st'.midExec) && Signals(st'.pc, st'.live, {})
            && Lives(st'.pc, st'.signal, st'.live) && FieldsOf(st') == Removed(FieldsOf(st), t)
  {
    hide Groups, Sighands, Signals, Lives, Mms, Kvs, Leaders, Pids, Marks, Gone, Mortals, TableOk, Rest;
    ZombieKnown(st, t);
    Mine(st, t);
    LeaveOk(st.sighand, t);
    LeaveOk(st.signal, t);
    SighandsReap(st.pc, st.sighand, Leave(st.sighand, t).value, t);
    SignalsReap(st.pc, st.signal, Leave(st.signal, t).value, st.midExec, t);
    LivesReap(st.pc, st.signal, st.live, Leave(st.signal, t).value, t);
    LiveReap(st.pc, st.live, t);
    MmsReap(st.pc, st.mm, t);
  }

  lemma ReapKeeps(st: State, a: Action)
    requires Inv(st) && Enabled(st, a) && a.Reap?
    ensures Inv(Do(st, a))
  {
    hide Groups, Sighands, Signals, Lives, Mms, Kvs, Leaders, Pids, Marks, Gone, Mortals, TableOk, Rest;
    var t := a.t;
    ZombieKnown(st, t);
    Mine(st, t);
    ReapTables(st, t);
    TaskGoes(FieldsOf(st), t);
    forall i | i in st.tgid && i != t ensures st.tgid[i] != t { NoneLedBy(st, t, i); }
    KvsReap(st.pc, st.kv, st.newKv, st.stores, t);
    PidsReap(st.pc, st.newPid, t);
    LeadersReap(st.pc, st.tgid, t);
    MarksReap(st.pc, st.midExec, st.zombies, t);
    MortalsReap(st.pc, st.tgid, st.mm.of, st.zombies, t);
  }

  lemma StepKeeps(st: State, a: Action)
    requires Inv(st) && Enabled(st, a)
    ensures Inv(Do(st, a))
  {
    hide Inv, Do, Enabled;
    match a {
      case Begin(_, _, _) => BeginFailKeep(st, a);
      case CopySighand(_, _) => SighandKeeps(st, a);
      case CopySignal(_, _) => SignalKeeps(st, a);
      case CopyMm(_, _) => MmKeeps(st, a);
      case AllocPid(_, _) => PidKeeps(st, a);
      case InitKv(_, _) => KvKeeps(st, a);
      case Attach(_) => AttachKeeps(st, a);
      case Fail(_) => BeginFailKeep(st, a);
      case Unwind(_) => UnwindKeeps(st, a);
      case ExecMm(_, _) => ExecMmKeeps(st, a);
      case ExecSighand(_, _) => ExecSighandKeeps(st, a);
      case StartExit(_) => StartExitKeeps(st, a);
      case ExitMm(_) => ExitMmKeeps(st, a);
      case Reap(_) => ReapKeeps(st, a);
    }
  }

  // ----- Every run -----

  lemma InitInv()
    ensures Inv(INIT)
  {
    hide Cnt;
    assert TableOk(INIT.signal) by { OneHolder(); }
    assert TableOk(INIT.mm);
    assert IsTask(FieldsOf(INIT), 0);
    assert Leads(INIT.tgid, 0);
  }

  lemma OneHolder()
    ensures TableOk(Table(map[0 := 0], map[], map[0 := 1]))
  {
    var m: map<nat, nat> := map[];
    CntAdd(m, 0, 0, 0);
    CntEmpty(0);
  }

  lemma {:induction false} RunKeeps(acts: seq<Action>)
    requires Exec(acts).Some?
    ensures Inv(Exec(acts).value)
  {
    hide Inv, Enabled, Do;
    if acts == [] {
      InitInv();
    } else {
      RunKeeps(acts[..|acts| - 1]);
      StepKeeps(Exec(acts[..|acts| - 1]).value, acts[|acts| - 1]);
    }
  }

  /**
   * After every run, for any two tasks.  The same signal_struct means the same tgid, sighand and kv
   * store; the same kv store, and the same tgid unless it is 0, means the same signal_struct.  The
   * same signal_struct means the same address space until one of the two has given its up in exit;
   * so does the same sighand, unless one of the two is between exec_mmap and unshare_sighand.
   */
  lemma SharingFollowsGroups(acts: seq<Action>, i: nat, j: nat)
    requires Exec(acts).Some? && i in Exec(acts).value.tgid && j in Exec(acts).value.tgid
    ensures var x := FieldsOf(Exec(acts).value); IsTask(x, i) && IsTask(x, j) && PairOk(x, i, j)
  {
    hide PairOk;
    RunKeeps(acts);
    var x := FieldsOf(Exec(acts).value);
    assert IsTask(x, i) && IsTask(x, j);
    assert PairOk(x, i, j);
  }

  /** Tasks with a pid other than 0 share a store exactly when they share a tgid. */
  lemma StoreIffTgid(acts: seq<Action>, i: nat, j: nat)
    requires Exec(acts).Some? && i in Exec(acts).value.tgid && j in Exec(acts).value.tgid
    requires Exec(acts).value.tgid[i] != 0
    ensures var st := Exec(acts).value; st.tgid[i] == st.tgid[j] <==> SameOpt(st.kv, i, j)
  {
    SharingFollowsGroups(acts, i, j);
  }

  /**
   * After every run, children under construction included: sighand.count and mm_users count the
   * tasks and the unfinished children that point to the object, and nothing was used after it was
   * freed; and a sighand, a signal_struct and an address space are live exactly as long as a task or
   * an unfinished child points to them, so whoever leaves last frees them.
   */
  lemma CountsAreSharers(acts: seq<Action>, n: nat)
    requires Exec(acts).Some?
    ensures var st := Exec(acts).value;
            && !st.crashed && TableOk(st.sighand) && TableOk(st.mm) && TableOk(st.signal)
            && (n in st.sighand.count <==> exists t :: Holders.Has(st.sighand, t, n))
            && (n in st.signal.count <==> exists t :: Holders.Has(st.signal, t, n))
            && (n in st.mm.count <==> exists t :: Holders.Has(st.mm, t, n))
  {
    hide TableOk, Inv, Cnt;
    RunKeeps(acts);
    var st := Exec(acts).value;
    AllSound(st);
    LiveIffHeld(st.sighand, n);
    LiveIffHeld(st.signal, n);
    LiveIffHeld(st.mm, n);
  }

  lemma AllSound(st: State)
    requires Inv(st)
    ensures !st.crashed && TableOk(st.sighand) && TableOk(st.mm) && TableOk(st.signal) && TableOk(st.live)
  {
  }

  /** nr_threads is the number of tasks of the group, and live the number of those that have not begun to exit. */
  lemma ThreadsAreCounted(acts: seq<Action>, i: nat)
    requires Exec(acts).Some? && i in Exec(acts).value.tgid
    ensures var st := Exec(acts).value;
            i in st.signal.of &&
            (var s := st.signal.of[i];
             && s in st.signal.count && st.signal.count[s] == Cnt(st.signal.of, s)
             && (st.tgid[i] != 0 ==> st.signal.count[s] == Cnt(st.tgid, st.tgid[i]))
             && (if s in st.live.count then st.live.count[s] else 0) == Cnt(st.live.of, s))
  {
    hide Inv, Groups, SighandLocal, SignalLocal, MmLocal, PidLocal, KvLocal, Those;
    RunKeeps(acts);
    var st := Exec(acts).value;
    Parts(st, i);
    AllSound(st);
    var x, s := st.signal, st.signal.of[i];
    forall t | t in x.copy ensures x.copy[t] != s { NewSignalIsApart(st, t, i); }
    CntUnheld(x.copy, s);
    if st.tgid[i] != 0 { SameMembers(st, i); }
    LiveIffHeld(st.live, s);
    if s !in st.live.count {
      forall t | t in st.live.of ensures st.live.of[t] != s { assert !Holders.Has(st.live, t, s); }
      CntUnheld(st.live.of, s);
    }
  }

  /** live has exactly the tasks that have not begun to exit, each with its signal_struct. */
  lemma LiveAreTheUnexited(acts: seq<Action>, i: nat)
    requires Exec(acts).Some? && i in Exec(acts).value.tgid
    ensures var st := Exec(acts).value;
            && i in st.pc && i in st.signal.of && (i in st.live.of <==> !st.pc[i].Exiting?)
            && (i in st.live.of ==> st.live.of[i] == st.signal.of[i])
  {
    hide Inv, TableOk;
    RunKeeps(acts);
    Parts(Exec(acts).value, i);
    Mine(Exec(acts).value, i);
  }

  lemma Parts(st: State, i: nat)
    requires Inv(st) && i in st.tgid
    ensures Groups(FieldsOf(st)) && TableOk(st.signal) && st.live.copy == st.signal.copy && i in st.pc
    ensures i in st.signal.of && IsTask(FieldsOf(st), i) && forall j :: j in st.signal.of ==> j in st.tgid
  {
    hide TableOk, SighandLocal, SignalLocal, MmLocal, PidLocal, KvLocal, Those, Leads;
    assert IsTask(FieldsOf(st), i);
  }

  lemma NewSignalIsApart(st: State, t: nat, i: nat)
    requires Inv(st) && t in st.signal.copy && i in st.signal.of
    ensures st.signal.copy[t] != st.signal.of[i]
  {
    hide TableOk, Groups, Leads;
    Mine(st, t);
    SoleCopy(st.signal, t, i);
  }

  lemma SameMembers(st: State, i: nat)
    requires Inv(st) && i in st.tgid && i in st.signal.of && st.tgid[i] != 0
    ensures Those(st.signal.of, st.signal.of[i]) == Those(st.tgid, st.tgid[i])
  {
    hide Inv, TableOk;
    Parts(st, i);
    var x := FieldsOf(st);
    forall j ensures j in Those(st.signal.of, st.signal.of[i]) <==> j in Those(st.tgid, st.tgid[i]) {
      if j in st.tgid {
        assert IsTask(x, j);
        assert PairOk(x, i, j);
      }
    }
  }

  // ----- The runs are not idle -----

  lemma Then(acts: seq<Action>, st: State, a: Action) returns (acts': seq<Action>, st': State)
    requires Exec(acts) == Some(st) && Enabled(st, a)
    ensures acts' == acts + [a] && st' == Do(st, a) && Exec(acts') == Some(st') && !st'.crashed
  {
    hide Do, Enabled;
    acts' := acts + [a];
    assert acts'[..|acts'| - 1] == acts;
    st' := Do(st, a);
    RunKeeps(acts');
    AllSound(st');
  }

  /** The numbers that the allocators hand to a clone. */
  datatype Numbers = Numbers(sighand: nat, signal: nat, mm: nat, pid: nat, store: nat)

  predicate Unused(st: State, n: Numbers) {
    && n.sighand !in st.sighand.count && n.signal !in st.signal.count && n.mm !in st.mm.count
    && n.pid !in st.tgid && n.store !in st.stores && forall u :: u in st.newPid ==> st.newPid[u] != n.pid
  }

  predicate MayClone(f: CopyProcess.Flags, who: CopyProcess.Current) {
    CopyProcess.Accepted(f, who) && (who.idle ==> IdleFlags(f))
  }

  lemma TryBegin(acts: seq<Action>, st: State, t: nat, f: CopyProcess.Flags, who: CopyProcess.Current)
    returns (acts': seq<Action>, st': State)
    requires Exec(acts) == Some(st) && Ready(st, t) && MayClone(f, who)
    ensures Exec(acts') == Some(st') && st' == st.(pc := st.pc[t := Build(f, who.idle, AtSighand)])
  {
    hide Exec, DoAttach, DoUnwind, DoReap, FailAt, Alone, Replace, Leave;
    acts', st' := Then(acts, st, Begin(t, f, who));
  }

  lemma TrySighand(acts: seq<Action>, st: State, t: nat, n: nat) returns (acts': seq<Action>, st': State)
    requires Exec(acts) == Some(st) && At(st, t, AtSighand) && n !in st.sighand.count
    ensures Exec(acts') == Some(st')
    ensures st' == st.(pc := st.pc[t := st.pc[t].(k := AtSignal)], sighand := st'.sighand)
    ensures st'.sighand.of == st.sighand.of && t in st'.sighand.copy
    ensures forall h :: h in st'.sighand.count ==> h in st.sighand.count || h == n
    ensures st'.sighand.copy[t] == if st.pc[t].f.sighand && t in st.sighand.of then st.sighand.of[t] else n
  {
    hide Exec, DoAttach, DoUnwind, DoReap, FailAt, CopyProcess.Accepted, Alone, Replace, Leave;
    acts', st' := Then(acts, st, CopySighand(t, n));
  }

  lemma TrySignal(acts: seq<Action>, st: State, t: nat, n: nat) returns (acts': seq<Action>, st': State)
    requires Exec(acts) == Some(st) && At(st, t, AtSignal) && n !in st.signal.count
    ensures Exec(acts') == Some(st')
    ensures st' == st.(pc := st.pc[t := st.pc[t].(k := AtMm)], signal := st'.signal, live := st'.live)
    ensures st'.signal.of == st.signal.of
    ensures !st.pc[t].f.thread ==> t in st'.signal.copy && st'.signal.copy[t] == n
    ensures forall h :: h in st'.signal.count ==> h in st.signal.count || h == n
  {
    hide Exec, DoAttach, DoUnwind, DoReap, FailAt, CopyProcess.Accepted, Alone, Replace, Leave;
    acts', st' := Then(acts, st, CopySignal(t, n));
  }

  lemma TryMm(acts: seq<Action>, st: State, t: nat, n: nat) returns (acts': seq<Action>, st': State)
    requires Exec(acts) == Some(st) && At(st, t, AtMm) && n !in st.mm.count
    ensures Exec(acts') == Some(st')
    ensures st' == st.(pc := st.pc[t := st.pc[t].(k := AtPid)], mm := st'.mm)
    ensures st'.mm.of == st.mm.of
    ensures forall h :: h in st'.mm.count ==> h in st.mm.count || h == n
    ensures t in st.mm.of ==> t in st'.mm.copy && st'.mm.copy[t] == if st.pc[t].f.vm then st.mm.of[t] else n
  {
    hide Exec, DoAttach, DoUnwind, DoReap, FailAt, CopyProcess.Accepted, Alone, Replace, Leave;
    acts', st' := Then(acts, st, CopyMm(t, n));
  }

  lemma TryPid(acts: seq<Action>, st: State, t: nat, n: nat) returns (acts': seq<Action>, st': State)
    requires Exec(acts) == Some(st) && At(st, t, AtPid)
    requires n !in st.tgid && forall u :: u in st.newPid ==> st.newPid[u] != n
    ensures Exec(acts') == Some(st')
    ensures st' == st.(pc := st.pc[t := st.pc[t].(k := AtKv)], newPid := st.newPid[t := n])
  {
    hide Exec, DoAttach, DoUnwind, DoReap, FailAt, CopyProcess.Accepted, Alone, Replace, Leave;
    acts', st' := Then(acts, st, AllocPid(t, n));
  }

  lemma TryKv(acts: seq<Action>, st: State, t: nat, n: nat) returns (acts': seq<Action>, st': State)
    requires Exec(acts) == Some(st) && At(st, t, AtKv) && n !in st.stores
    ensures Exec(acts') == Some(st') && st'.stores <= st.stores + {n}
    ensures st' == st.(pc := st.pc[t := st.pc[t].(k := AtAttach)], newKv := st'.newKv, stores := st'.stores)
    ensures !st.pc[t].f.thread ==> st'.newKv == st.newKv[t := n]
  {
    hide Exec, DoAttach, DoUnwind, DoReap, FailAt, CopyProcess.Accepted, Alone, Replace, Leave;
    acts', st' := Then(acts, st, InitKv(t, n));
  }

  lemma TryAttach(acts: seq<Action>, st: State, t: nat) returns (acts': seq<Action>, st': State)
    requires Exec(acts) == Some(st) && At(st, t, AtAttach) && t in st.newPid
    ensures Exec(acts') == Some(st') && t in st.tgid && t in st.sighand.copy
    ensures st'.midExec == st.midExec && st'.newPid == st.newPid - {t} && st'.stores == st.stores
    ensures var c := st.newPid[t];
      && st'.pc == st.pc[t := User][c := User] && st'.tgid == st.tgid[c := TgidFor(st, t, c)]
      && st'.sighand.of == st.sighand.of[c := st.sighand.copy[t]]
      && st'.mm.of == (if t in st.mm.copy then st.mm.of[c := st.mm.copy[t]] else st.mm.of)
      && st'.kv == (if t in st.newKv then st.kv[c := st.newKv[t]] else st.kv)
      && (!st.pc[t].f.thread ==> t in st.signal.copy && st'.signal.of == st.signal.of[c := st.signal.copy[t]])
    ensures forall h :: h in st'.sighand.count ==> h in st.sighand.count
    ensures forall h :: h in st'.signal.count ==> h in st.signal.count
    ensures forall h :: h in st'.mm.count ==> h in st.mm.count
  {
    hide Exec, DoUnwind, DoReap, FailAt, CopyProcess.Accepted, Alone, Replace, Leave;
    acts', st' := Then(acts, st, Attach(t));
  }

  /** Where an undisturbed clone ends. */
  predicate Cloned(st: State, st': State, t: nat, f: CopyProcess.Flags, idle: bool, n: Numbers) {
    && t in st.tgid && t in st.sighand.of
    && st'.pc == st.pc[t := User][n.pid := User] && st'.newPid == st.newPid && st'.stores <= st.stores + {n.store}
    && st'.midExec == st.midExec
    && st'.tgid == st.tgid[n.pid := if f.thread then st.tgid[t] else if idle then 0 else n.pid]
    && st'.sighand.of == st.sighand.of[n.pid := if f.sighand then st.sighand.of[t] else n.sighand]
    && st'.mm.of == (if t in st.mm.of then st.mm.of[n.pid := if f.vm then st.mm.of[t] else n.mm] else st.mm.of)
    && (!f.thread ==> st'.kv == st.kv[n.pid := n.store] && st'.signal.of == st.signal.of[n.pid := n.signal])
    && Grown(st, st', n)
  }

  /** Only the given numbers have come into use. */
  predicate Grown(st: State, st': State, n: Numbers) {
    && (forall h :: h in st'.sighand.count ==> h in st.sighand.count || h == n.sighand)
    && (forall h :: h in st'.signal.count ==> h in st.signal.count || h == n.signal)
    && (forall h :: h in st'.mm.count ==> h in st.mm.count || h == n.mm)
  }

  /** Where it stands after copy_mm. */
  predicate Halfway(st: State, st': State, t: nat, f: CopyProcess.Flags, idle: bool, n: Numbers) {
    && st' == st.(pc := st.pc[t := Build(f, idle, AtPid)], sighand := st'.sighand, signal := st'.signal,
                  live := st'.live, mm := st'.mm)
    && st'.sighand.of == st.sighand.of && st'.mm.of == st.mm.of && t in st.sighand.of && t in st'.sighand.copy
    && st'.sighand.copy[t] == (if f.sighand then st.sighand.of[t] else n.sighand)
    && (if t in st.mm.of then t in st'.mm.copy && st'.mm.copy[t] == (if f.vm then st.mm.of[t] else n.mm)
        else t !in st'.mm.copy)
    && st'.signal.of == st.signal.of && (!f.thread ==> t in st'.signal.copy && st'.signal.copy[t] == n.signal)
    && Grown(st, st', n)
  }

  lemma Idle(acts: seq<Action>, st: State, t: nat)
    requires Exec(acts) == Some(st) && t in st.pc
    ensures t in st.sighand.of && t in st.tgid && (st.pc[t].User? ==> t !in st.newPid && t !in st.newKv)
    ensures (t !in st.mm.of ==> t !in st.mm.copy) && (t in st.zombies ==> st.pc[t].Exiting?)
  {
    hide Inv, TableOk;
    RunKeeps(acts);
    Mine(st, t);
  }

  lemma CloneCopies(acts: seq<Action>, st: State, t: nat, f: CopyProcess.Flags, who: CopyProcess.Current, n: Numbers)
    returns (acts': seq<Action>, st': State)
    requires Exec(acts) == Some(st) && Ready(st, t) && MayClone(f, who) && Unused(st, n)
    ensures Exec(acts') == Some(st') && Halfway(st, st', t, f, who.idle, n)
  {
    hide Exec, MayClone;
    Idle(acts, st, t);
    acts', st' := TryBegin(acts, st, t, f, who);
    acts', st' := TrySighand(acts', st', t, n.sighand);
    acts', st' := TrySignal(acts', st', t, n.signal);
    acts', st' := TryMm(acts', st', t, n.mm);
    Idle(acts', st', t);
  }

  /** Where the pid, the store and the attachment lead from there. */
  predicate Ended(st: State, st': State, t: nat, n: Numbers)
    requires At(st, t, AtPid)
  {
    var f, c := st.pc[t].f, n.pid;
    && t in st.tgid && t in st.sighand.copy
    && st'.pc == st.pc[t := User][c := User] && st'.newPid == st.newPid - {t} && st'.stores <= st.stores + {n.store}
    && st'.midExec == st.midExec
    && st'.tgid == st.tgid[c := if f.thread then st.tgid[t] else if st.pc[t].idle then 0 else c]
    && st'.sighand.of == st.sighand.of[c := st.sighand.copy[t]]
    && st'.mm.of == (if t in st.mm.copy then st.mm.of[c := st.mm.copy[t]] else st.mm.of)
    && (!f.thread ==> st'.kv == st.kv[c := n.store])
    && (!f.thread ==> t in st.signal.copy && st'.signal.of == st.signal.of[c := st.signal.copy[t]])
    && (forall h :: h in st'.sighand.count ==> h in st.sighand.count)
    && (forall h :: h in st'.signal.count ==> h in st.signal.count)
    && (forall h :: h in st'.mm.count ==> h in st.mm.count)
  }

  lemma CloneEnds(acts: seq<Action>, st: State, t: nat, n: Numbers) returns (acts': seq<Action>, st': State)
    requires Exec(acts) == Some(st) && At(st, t, AtPid) && n.store !in st.stores
    requires n.pid !in st.tgid && forall u :: u in st.newPid ==> st.newPid[u] != n.pid
    ensures Exec(acts') == Some(st') && Ended(st, st', t, n)
  {
    hide Exec;
    acts', st' := TryPid(acts, st, t, n.pid);
    acts', st' := TryKv(acts', st', t, n.store);
    acts', st' := TryAttach(acts', st', t);
  }

  /** In every reachable state every task that is ready can carry out every accepted clone. */
  lemma CloneCanSucceed(
      acts: seq<Action>, st: State, t: nat, f: CopyProcess.Flags, who: CopyProcess.Current, n: Numbers)
    returns (acts': seq<Action>, st': State)
    requires Exec(acts) == Some(st) && Ready(st, t) && MayClone(f, who) && Unused(st, n)
    ensures Exec(acts') == Some(st') && Cloned(st, st', t, f, who.idle, n)
  {
    hide Exec, MayClone;
    Idle(acts, st, t);
    acts', st' := CloneCopies(acts, st, t, f, who, n);
    acts', st' := CloneEnds(acts', st', t, n);
  }

  /** The two steps of exec, for a task that is alone in its thread group. */
  lemma TryExecMm(acts: seq<Action>, st: State, t: nat, n: nat) returns (acts': seq<Action>, st': State)
    requires Exec(acts) == Some(st) && Ready(st, t) && Alone(st.signal, t) && n !in st.mm.count
    ensures Exec(acts') == Some(st') && st' == st.(mm := st'.mm, midExec := st.midExec + {t})
    ensures st'.mm.of == st.mm.of[t := n]
    ensures t !in st.mm.of ==> forall h :: h in st'.mm.count ==> h in st.mm.count || h == n
  {
    hide Exec, Inv, TableOk, Rest, DoAttach, DoUnwind, DoReap;
    RunKeeps(acts);
    Mine(st, t);
    ReplaceOk(st.mm, t, n);
    acts', st' := Then(acts, st, ExecMm(t, n));
  }

  lemma TryExecSighand(acts: seq<Action>, st: State, t: nat, n: nat) returns (acts': seq<Action>, st': State)
    requires Exec(acts) == Some(st) && t in st.pc && st.pc[t].User? && t in st.midExec && n !in st.sighand.count
    requires Alone(st.sighand, t)
    ensures Exec(acts') == Some(st') && st' == st.(midExec := st.midExec - {t})
  {
    hide Exec, DoAttach, DoUnwind, DoReap, FailAt, CopyProcess.Accepted, Replace, Leave;
    acts', st' := Then(acts, st, ExecSighand(t, n));
  }

  const FORK: CopyProcess.Flags := CopyProcess.Flags(
    false, false, false, false, false, false, false, false, false, false, false, false, false, false)
  const IDLE: CopyProcess.Flags := FORK.(vm := true)
  const SHARE: CopyProcess.Flags := IDLE.(sighand := true)
  const THREAD: CopyProcess.Flags := SHARE.(thread := true)
  const CALLER: CopyProcess.Current := CopyProcess.Current(
    true, true, false, false, false, false, true, true, false, 0)

  /** Every number in use is below b, and every task is ready. */
  predicate Below(st: State, b: nat) {
    && (forall h :: h in st.sighand.count ==> h < b) && (forall h :: h in st.signal.count ==> h < b)
    && (forall h :: h in st.mm.count ==> h < b) && (forall h :: h in st.stores ==> h < b)
    && st.newPid == map[] && st.midExec == {} && forall u :: u in st.pc ==> st.pc[u].User?
  }

  /** A clone by task t of a new task p, all of whose other numbers are b. */
  lemma AnotherClone(acts: seq<Action>, st: State, t: nat, f: CopyProcess.Flags, idle: bool, p: nat, b: nat)
    returns (acts': seq<Action>, st': State)
    requires Exec(acts) == Some(st) && t in st.pc && p !in st.tgid && Below(st, b)
    requires (f == FORK || f == SHARE || f == THREAD || f == IDLE) && (idle ==> f == IDLE)
    ensures Exec(acts') == Some(st') && Below(st', b + 1) && Cloned(st, st', t, f, idle, Numbers(b, b, b, p, b))
  {
    hide Exec;
    acts', st' := CloneCanSucceed(acts, st, t, f, CALLER.(idle := idle), Numbers(b, b, b, p, b));
  }

  /** No other task points to what t points to. */
  predicate Apart(x: Table, t: nat) {
    forall u :: u in x.of && u != t && t in x.of ==> x.of[u] != x.of[t]
  }

  /** While nobody clones, a task with a signal_struct of its own is counted alone on it. */
  lemma QuietIsAlone(acts: seq<Action>, st: State, t: nat)
    requires Exec(acts) == Some(st) && t in st.pc && forall u :: u in st.pc ==> st.pc[u].User?
    ensures Apart(st.signal, t) ==> Alone(st.signal, t)
    ensures Apart(st.sighand, t) ==> Alone(st.sighand, t)
  {
    hide Exec, Inv, TableOk;
    RunKeeps(acts);
    AllSound(st);
    Mine(st, t);
    NoCopies(st);
    if Apart(st.signal, t) { UserIsSole(st.signal, t); }
    if Apart(st.sighand, t) { UserIsSole(st.sighand, t); }
  }

  lemma NoCopies(st: State)
    requires Inv(st) && forall u :: u in st.pc ==> st.pc[u].User?
    ensures st.signal.copy == map[] && st.sighand.copy == map[] && st.mm.copy == map[]
  {
    hide Inv, TableOk, KvLocal, PidLocal, Sole;
    forall u ensures u !in st.signal.copy && u !in st.sighand.copy && u !in st.mm.copy {
      if u in st.pc { Mine(st, u); } else { NoFields(st, u); }
    }
    assert forall u :: u !in st.signal.copy;
    assert forall u :: u !in st.sighand.copy;
    assert forall u :: u !in st.mm.copy;
  }

  /** init forks task 1, which execs. */
  lemma ForkAndExec() returns (acts: seq<Action>, st: State)
    ensures Exec(acts) == Some(st) && Below(st, 6) && st.pc == map[0 := User, 1 := User]
    ensures st.tgid == map[0 := 0, 1 := 1] && st.mm.of == map[1 := 5]
    ensures st.sighand.of == map[0 := 0, 1 := 1] && st.signal.of == map[0 := 0, 1 := 1]
  {
    hide Exec, Cnt;
    NoSteps();
    acts, st := AnotherClone([], INIT, 0, FORK, false, 1, 1);
    QuietIsAlone(acts, st, 1);
    acts, st := TryExecMm(acts, st, 1, 5);
    acts, st := TryExecSighand(acts, st, 1, 5);
  }

  /** Then thread 2 shares its address space and process 3 has a copy. */
  lemma ThreadsShareForksDoNot() returns (acts: seq<Action>, st: State)
    ensures Exec(acts) == Some(st) && st.tgid == map[0 := 0, 1 := 1, 2 := 1, 3 := 3]
    ensures st.mm.of == map[1 := 5, 2 := 5, 3 := 7]
  {
    hide Exec;
    acts, st := ForkAndExec();
    acts, st := AnotherClone(acts, st, 1, THREAD, false, 2, 6);
    assert st.tgid == map[0 := 0, 1 := 1, 2 := 1] && st.mm.of == map[1 := 5, 2 := 5] && 1 in st.pc;
    acts, st := AnotherClone(acts, st, 1, FORK, false, 3, 7);
  }

  /** Between its two calls an exec has tasks with the same sighand and different address spaces. */
  lemma MidExecDiffers() returns (acts: seq<Action>, st: State)
    ensures Exec(acts) == Some(st) && st.midExec == {1}
    ensures st.sighand.of == map[0 := 0, 1 := 1, 2 := 1] && st.mm.of == map[1 := 8, 2 := 5]
  {
    hide Exec, Cnt;
    acts, st := ForkAndExec();
    acts, st := AnotherClone(acts, st, 1, SHARE, false, 2, 6);
    assert st.signal.of == map[0 := 0, 1 := 1, 2 := 6] && 1 in st.pc;
    QuietIsAlone(acts, st, 1);
    acts, st := TryExecMm(acts, st, 1, 8);
  }

  /** The three steps of an exit; the last one is for a task that no thread of its group outlives. */
  lemma TryStartExit(acts: seq<Action>, st: State, t: nat) returns (acts': seq<Action>, st': State)
    requires Exec(acts) == Some(st) && t in st.pc && st.pc[t].User? && !IsIdle(st, t)
    ensures Exec(acts') == Some(st') && st' == st.(pc := st.pc[t := Exiting], live := st'.live)
  {
    hide Exec, Inv, DoAttach, DoUnwind, DoReap, FailAt, CopyProcess.Accepted, Replace, Leave;
    acts', st' := Then(acts, st, StartExit(t));
  }

  lemma TryExitMm(acts: seq<Action>, st: State, t: nat) returns (acts': seq<Action>, st': State)
    requires Exec(acts) == Some(st) && t in st.pc && st.pc[t].Exiting? && t !in st.zombies
    ensures Exec(acts') == Some(st') && st' == st.(mm := st'.mm, zombies := st.zombies + {t})
    ensures st'.mm.of == st.mm.of - {t}
  {
    hide Exec, Inv, TableOk, Rest, DoAttach, DoUnwind, DoReap, FailAt, CopyProcess.Accepted, Replace, Leave;
    RunKeeps(acts);
    Mine(st, t);
    if t in st.mm.of { LeaveOk(st.mm, t); }
    acts', st' := Then(acts, st, ExitMm(t));
  }

  lemma TryReap(acts: seq<Action>, st: State, t: nat) returns (acts': seq<Action>, st': State)
    requires Exec(acts) == Some(st) && t in st.pc && t in st.zombies && Alone(st.signal, t)
    ensures Exec(acts') == Some(st') && st'.pc == st.pc - {t} && st'.tgid == st.tgid - {t} && st'.mm == st.mm
    ensures st'.sighand.of == st.sighand.of - {t} && st'.signal.of == st.signal.of - {t}
  {
    hide Exec, Inv, TableOk, Rest, DoAttach, DoUnwind, FailAt, CopyProcess.Accepted, Replace, Leave, Alone;
    RunKeeps(acts);
    Mine(st, t);
    LeaveOk(st.sighand, t);
    LeaveOk(st.signal, t);
    acts', st' := Then(acts, st, Reap(t));
  }

  /** Once only the boot task is left, only its objects are live. */
  lemma OnlyBootLeft(acts: seq<Action>, st: State, n: nat)
    requires Exec(acts) == Some(st) && st.pc == map[0 := User] && st.mm.of == map[]
    requires st.sighand.of == map[0 := 0] && st.signal.of == map[0 := 0]
    ensures n !in st.mm.count && (n in st.sighand.count <==> n == 0) && (n in st.signal.count <==> n == 0)
  {
    hide Exec, Cnt, TableOk, Inv;
    RunKeeps(acts);
    NoCopies(st);
    CountsAreSharers(acts, n);
    assert Has(st.sighand, 0, 0) && Has(st.signal, 0, 0);
  }

  /** When task 1 exits, all that it had is freed and only the boot task is left. */
  lemma LastExitFrees() returns (acts: seq<Action>, st: State)
    ensures Exec(acts) == Some(st) && st.tgid == map[0 := 0]
    ensures st.mm.count == map[] && st.sighand.count.Keys == {0} && st.signal.count.Keys == {0}
  {
    hide Exec, Alone, Apart, Cnt;
    acts, st := ForkAndExec();
    assert Apart(st.signal, 1) by { ApartIn(st.signal); }
    QuietIsAlone(acts, st, 1);
    Idle(acts, st, 1);
    acts, st := TryStartExit(acts, st, 1);
    acts, st := TryExitMm(acts, st, 1);
    acts, st := TryReap(acts, st, 1);
    forall n ensures n !in st.mm.count && (n in st.sighand.count <==> n == 0) && (n in st.signal.count <==> n == 0) {
      OnlyBootLeft(acts, st, n);
    }
    assert st.mm.count.Keys == {};
  }

  lemma ApartIn(x: Table)
    requires x.of == map[0 := 0, 1 := 1]
    ensures Apart(x, 1)
  {
  }

  /** An idle task has the boot task's tgid, but a signal_struct and a store of its own. */
  lemma IdleSharesTgidOnly() returns (acts: seq<Action>, st: State)
    ensures Exec(acts) == Some(st) && st.tgid == map[0 := 0, 1 := 0] && !SameOpt(st.kv, 0, 1)
    ensures st.signal.of == map[0 := 0, 1 := 1]
  {
    hide Exec;
    NoSteps();
    acts, st := AnotherClone([], INIT, 0, IDLE, true, 1, 1);
  }

  lemma NoSteps()
    ensures Exec([]) == Some(INIT)
  {
  }
}
