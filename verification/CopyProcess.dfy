/**
 * copy_process: about twenty resources taken in order and, on failure, unwound through a
 * ladder of labels.  `held` is the stack of what the call holds; releasing anything but its
 * top is a proof error, so the ladder is checked to release in reverse order.
 */
module CopyProcess {
  import opened Lists

  /** The clone flags that decide what is shared. `newNs` is any namespace flag. */
  datatype Flags = Flags(
    vm: bool, fs: bool, files: bool, sighand: bool, thread: bool, parent: bool, sysvsem: bool, io: bool,
    pidfd: bool, detached: bool, newMnt: bool, newUser: bool, newPid: bool, newNs: bool)

  /** What the calling task looks like. `idle` is a fork that brings its own pid. */
  datatype Current = Current(
    hasFiles: bool, hasMm: bool, hasIo: bool, ioprioValid: bool, fsInExec: bool, unkillable: bool,
    samePidNs: bool, sameTimeNs: bool, idle: bool, node: nat)

  /** Which of the calls that can fail succeed, and the numbers the allocators hand out. */
  datatype Env = Env(
    noSignal: bool, dup: bool, creds: bool, belowLimit: bool, belowMax: bool, policy: bool, sched: bool,
    perf: bool, audit: bool, security: bool, semundo: bool, files: bool, fs: bool, sighand: bool, signal: bool,
    mm: bool, namespaces: bool, io: bool, thread: bool, pid: bool, fd: bool, pidfile: bool, putUser: bool,
    cgroup: bool, nsAlive: bool, notKilled: bool, pidNr: nat, fdNr: nat)

  /** The objects of the caller that a new task may share. */
  datatype Obj = UndoList | Files | Fs | Sighand | Signal | Mm | Nsproxy | IoContext

  datatype Res =
    | Shared(obj: Obj) | New(obj: Obj) | Extra(obj: Obj)
    | DelayedNode | TaskStruct | Stack | Creds | Nproc | Delay | Policy | Perf | Audit | Security
    | Thread | Pid | Fd | PidFile | Cgroup | TasklistLock | Siglock

  /** A pointer of the new task: to nothing, to the caller's object, or to one of its own. */
  datatype Ref = Null | OfCurrent | Own

  /** nr_threads and live of the caller's signal_struct; nr_threads and total_forks of the system. */
  datatype Tally = Tally(nrThreads: int, live: int, threads: int, forks: int)

  /** The kernel's side: reference counts of the caller's objects, allocators, lists and locks. */
  datatype State = State(
    refs: map<Obj, int>, nproc: int, pids: set<nat>, pidRefs: int, fds: set<nat>, delayed: seq<nat>,
    tasklist: bool, siglock: bool, held: seq<Res>, kvStores: int, tally: Tally)

  /** Lines 1960-2018: the flag combinations that are refused before anything is taken. */
  predicate Accepted(f: Flags, c: Current) {
    && !(f.newMnt && f.fs)
    && !(f.newUser && f.fs)
    && !(f.thread && !f.sighand)
    && !(f.sighand && !f.vm)
    && !(f.parent && c.unkillable)
    && !(f.thread && (f.newUser || f.newPid || !c.samePidNs))
    && !((f.thread || f.vm) && !c.sameTimeNs)
    && !(f.pidfd && (f.detached || f.thread))
  }

  // ----- The stages, numbered by the label that undoes them -----

  const FORK_OUT: nat := 0
  const BAD_FORK_FREE: nat := 1
  const CLEANUP_COUNT: nat := 2
  const CLEANUP_THREADGROUP_LOCK: nat := 3
  const CLEANUP_POLICY: nat := 4
  const CLEANUP_PERF: nat := 5
  const CLEANUP_AUDIT: nat := 6
  const CLEANUP_SECURITY: nat := 7
  const CLEANUP_SEMUNDO: nat := 8
  const CLEANUP_FILES: nat := 9
  const CLEANUP_FS: nat := 10
  const CLEANUP_SIGHAND: nat := 11
  const CLEANUP_SIGNAL: nat := 12
  const CLEANUP_MM: nat := 13
  const CLEANUP_NAMESPACES: nat := 14
  const CLEANUP_IO: nat := 15
  const CLEANUP_THREAD: nat := 16
  const FREE_PID: nat := 17
  const PUT_PIDFD: nat := 18
  const CANCEL_CGROUP_FORK: nat := 19
  const CANCEL_CGROUP: nat := 20

  function Push(s: State, r: Res): State {
    s.(held := s.held + [r])
  }

  /** One more reference to the caller's object, a new object, or nothing. */
  function AddRef(s: State, obj: Obj, ref: Ref): State
    requires obj in s.refs
  {
    match ref
    case Null => s
    case OfCurrent => Push(s.(refs := s.refs[obj := s.refs[obj] + 1]), Shared(obj))
    case Own => Push(s, New(obj))
  }

  predicate IsRefStage(n: nat) {
    CLEANUP_SEMUNDO <= n <= CLEANUP_IO
  }

  function ObjOf(n: nat): Obj
    requires IsRefStage(n)
  {
    if n == CLEANUP_SEMUNDO then UndoList
    else if n == CLEANUP_FILES then Files
    else if n == CLEANUP_FS then Fs
    else if n == CLEANUP_SIGHAND then Sighand
    else if n == CLEANUP_SIGNAL then Signal
    else if n == CLEANUP_MM then Mm
    else if n == CLEANUP_NAMESPACES then Nsproxy
    else IoContext
  }

  /** What the copy_* helper of an object makes the new task refer to, beyond what it inherits. */
  function RefOf(obj: Obj, f: Flags, c: Current): Ref {
    match obj
    case UndoList => if f.sysvsem then OfCurrent else Null
    case Files => if !c.hasFiles then Null else if f.files then OfCurrent else Own
    case Fs => if f.fs then OfCurrent else Own
    case Sighand => if f.sighand then OfCurrent else Own
    case Signal => if f.thread then Null else Own
    case Mm => if !c.hasMm then Null else if f.vm then OfCurrent else Own
    case Nsproxy => if f.newNs then Own else OfCurrent
    case IoContext => if !c.hasIo then Null else if f.io then OfCurrent else if c.ioprioValid then Own else Null
  }

  predicate IsPlainStage(n: nat) {
    CLEANUP_THREADGROUP_LOCK <= n <= CLEANUP_SECURITY || n == CLEANUP_THREAD || n == CANCEL_CGROUP_FORK
  }

  function PlainRes(n: nat): Res
    requires IsPlainStage(n)
  {
    if n == CLEANUP_THREADGROUP_LOCK then Delay
    else if n == CLEANUP_POLICY then Policy
    else if n == CLEANUP_PERF then Perf
    else if n == CLEANUP_AUDIT then Audit
    else if n == CLEANUP_SECURITY then Security
    else if n == CLEANUP_THREAD then Thread
    else Cgroup
  }

  ghost predicate AllRefs(s: State) {
    forall obj :: obj in s.refs
  }

  function AddNode(s: State, f: Flags, c: Current): State {
    if f.thread then s else Push(s.(delayed := [c.node] + s.delayed), DelayedNode)
  }

  function AddPid(s: State, c: Current, e: Env): State {
    if c.idle then s else Push(s.(pids := s.pids + {e.pidNr}), Pid)
  }

  function AddPidfd(s: State, f: Flags, e: Env): State {
    if f.pidfd then Push(Push(s.(fds := s.fds + {e.fdNr}, pidRefs := s.pidRefs + 1), Fd), PidFile) else s
  }

  /** What stage `n` adds to the kernel state. */
  ghost function AddStage(s: State, f: Flags, c: Current, e: Env, n: nat): State
    requires AllRefs(s)
  {
    if IsPlainStage(n) then Push(s, PlainRes(n))
    else if IsRefStage(n) then AddRef(s, ObjOf(n), RefOf(ObjOf(n), f, c))
    else if n == FORK_OUT then AddNode(s, f, c)
    else if n == BAD_FORK_FREE then Push(Push(s, TaskStruct), Stack)
    else if n == CLEANUP_COUNT then Push(Push(s.(nproc := s.nproc + 1), Creds), Nproc)
    else if n == FREE_PID then AddPid(s, c, e)
    else if n == PUT_PIDFD then AddPidfd(s, f, e)
    else Push(Push(s.(tasklist := true, siglock := true), TasklistLock), Siglock)
  }

  lemma EarlyStages(s: State, f: Flags, c: Current, e: Env)
    requires AllRefs(s)
    ensures AddStage(s, f, c, e, CLEANUP_COUNT) == Push(Push(s.(nproc := s.nproc + 1), Creds), Nproc)
    ensures AddStage(s, f, c, e, BAD_FORK_FREE) == Push(Push(s, TaskStruct), Stack)
    ensures AddStage(s, f, c, e, FORK_OUT) == AddNode(s, f, c)
  {
  }

  /** The kernel state with the stages below `n` taken. */
  ghost function Added(s: State, f: Flags, c: Current, e: Env, n: nat): (t: State)
    requires AllRefs(s)
    ensures AllRefs(t)
  {
    if n == 0 then s else AddStage(Added(s, f, c, e, n - 1), f, c, e, n - 1)
  }

  // ----- The new task -----

  class Child {
    var ref: map<Obj, Ref>

    /** dup_task_struct: a byte copy of the caller, so every pointer is the caller's. */
    constructor (c: Current)
      ensures Whole()
      ensures forall obj :: obj != IoContext ==> ref[obj] == Inherited(obj, c)
    {
      ref := map[UndoList := OfCurrent, Files := if c.hasFiles then OfCurrent else Null, Fs := OfCurrent,
                 Sighand := OfCurrent, Signal := OfCurrent, Mm := if c.hasMm then OfCurrent else Null,
                 Nsproxy := OfCurrent, IoContext := if c.hasIo then OfCurrent else Null];
      new;
      forall obj: Obj ensures obj in ref {
        match obj {
          case UndoList => case Files => case Fs => case Sighand =>
          case Signal => case Mm => case Nsproxy => case IoContext =>
        }
      }
    }

    ghost predicate Whole()
      reads this
    {
      forall obj: Obj :: obj in ref
    }

    method Point(obj: Obj, r: Ref)
      requires Whole()
      modifies this
      ensures Whole() && ref == old(ref)[obj := r]
    {
      ref := ref[obj := r];
    }

    /** The pointers set up by the stages below `n` are as their copy_* helpers leave them. */
    ghost predicate SetUp(f: Flags, c: Current, n: nat)
      reads this
    {
      && Whole()
      && forall i :: 0 <= i < n && IsRefStage(i) && i != CLEANUP_SIGNAL ==> ref[ObjOf(i)] == RefOf(ObjOf(i), f, c)
    }

    /** The pointers of the stages from `n` on are still those of the byte copy. */
    ghost predicate Untaken(c: Current, n: nat)
      reads this
    {
      Whole() && forall i :: n <= i && IsRefStage(i) ==> ref[ObjOf(i)] == Inherited(ObjOf(i), c)
    }
  }

  /** What the byte copy leaves in the new task; line 2135 then clears the io_context. */
  function Inherited(obj: Obj, c: Current): Ref {
    match obj
    case Files => if c.hasFiles then OfCurrent else Null
    case Mm => if c.hasMm then OfCurrent else Null
    case IoContext => Null
    case _ => OfCurrent
  }

  /** Where a copy_* helper of stage `n` leaves things. */
  twostate predicate Copied(k: Kernel, p: Child, f: Flags, c: Current, e: Env, n: nat, ok: bool)
    requires IsRefStage(n) && old(AllRefs(k.s))
    reads k, p
  {
    && (ok <==> RefOk(ObjOf(n), f, c, e))
    && k.s == (if ok then AddStage(old(k.s), f, c, e, n) else old(k.s))
    && AllRefs(k.s) && p.SetUp(f, c, if ok then n + 1 else n) && (ok ==> p.Untaken(c, n + 1))
    && p.Whole() && forall obj :: obj in old(p.ref) && obj != ObjOf(n) ==> p.ref[obj] == old(p.ref)[obj]
  }

  class Kernel {
    var s: State
    var fsLocked: bool     // the lock of the caller's fs_struct

    constructor (s: State)
      ensures this.s == s && !fsLocked
    {
      this.s, fsLocked := s, false;
    }

    method Take(r: Res)
      modifies `s
      ensures s == Push(old(s), r)
    {
      s := Push(s, r);
    }

    /** Only what was taken last can be released. */
    method Drop(r: Res)
      requires s.held != [] && s.held[|s.held| - 1] == r
      modifies `s
      ensures s == old(s).(held := old(s).held[..|old(s).held| - 1])
    {
      s := s.(held := s.held[..|s.held| - 1]);
    }

    /** exit_files, exit_fs, __cleanup_sighand, mmput, ...: drop whatever the pointer refers to. */
    method Put(obj: Obj, ref: Ref, ghost t: State)
      requires obj in t.refs && s == AddRef(t, obj, ref)
      modifies `s
      ensures s == t
    {
      if ref == OfCurrent {
        Drop(Shared(obj));
        s := s.(refs := s.refs[obj := s.refs[obj] - 1]);
        assert s.refs == t.refs;
      } else if ref == Own {
        Drop(New(obj));
      }
      assert s.held == t.held;
    }

    // ----- The ladder -----

    /** The code between one label and the next: it undoes exactly stage `n`. */
    method Rung(p: Child, f: Flags, c: Current, e: Env, n: nat, ghost t: State)
      requires n <= CANCEL_CGROUP && AllRefs(t) && s == AddStage(t, f, c, e, n) && p.SetUp(f, c, n + 1)
      requires !t.tasklist && !t.siglock
      requires n == FORK_OUT ==> c.node !in t.delayed
      requires n == FREE_PID ==> e.pidNr !in t.pids
      requires n == PUT_PIDFD ==> e.fdNr !in t.fds
      modifies `s
      ensures s == t
    {
      if IsPlainStage(n) {
        Drop(PlainRes(n));
        assert s.held == t.held;
      } else if n == CLEANUP_SIGNAL {
        if !f.thread { Drop(New(Signal)); }
        assert s.held == t.held;
      } else if IsRefStage(n) {
        Put(ObjOf(n), p.ref[ObjOf(n)], t);
      } else if n > CLEANUP_IO {
        RungLate(f, c, e, n, t);
      } else {
        RungEarly(f, c, e, n, t);
      }
    }

    method RungLate(f: Flags, c: Current, e: Env, n: nat, ghost t: State)
      requires n in {CANCEL_CGROUP, PUT_PIDFD, FREE_PID} && AllRefs(t) && s == AddStage(t, f, c, e, n)
      requires !t.tasklist && !t.siglock
      requires n == FREE_PID ==> e.pidNr !in t.pids
      requires n == PUT_PIDFD ==> e.fdNr !in t.fds
      modifies `s
      ensures s == t
    {
      hide AddRef, ObjOf, RefOf, PlainRes;
      if n == CANCEL_CGROUP {
        Drop(Siglock);
        s := s.(siglock := false);
        Drop(TasklistLock);
        s := s.(tasklist := false);
      } else if n == PUT_PIDFD {
        if f.pidfd {
          Drop(PidFile);
          s := s.(pidRefs := s.pidRefs - 1);
          Drop(Fd);
          s := s.(fds := s.fds - {e.fdNr});
        }
      } else if !c.idle {
        Drop(Pid);
        s := s.(pids := s.pids - {e.pidNr});
      }
      assert s.held == t.held;
    }

    method RungEarly(f: Flags, c: Current, e: Env, n: nat, ghost t: State)
      requires n in {CLEANUP_COUNT, BAD_FORK_FREE, FORK_OUT} && AllRefs(t) && s == AddStage(t, f, c, e, n)
      requires n == FORK_OUT ==> c.node !in t.delayed
      modifies `s
      ensures s == t
    {
      hide AddStage, Without, AddRef, ObjOf, RefOf, PlainRes;
      EarlyStages(t, f, c, e);
      if n == CLEANUP_COUNT {
        Drop(Nproc);
        s := s.(nproc := s.nproc - 1);
        Drop(Creds);
      } else if n == BAD_FORK_FREE {
        Drop(Stack);
        Drop(TaskStruct);
      } else if !f.thread {
        Drop(DelayedNode);
        WithoutNew(t.delayed, c.node);
        s := s.(delayed := Without(s.delayed, c.node));
      }
      assert s.held == t.held;
    }

    /** A jump to label `jump` falls through every rung below it. */
    method Unwind(p: Child, f: Flags, c: Current, e: Env, jump: nat, ghost s0: State)
      requires AllRefs(s0) && jump <= CANCEL_CGROUP && s == Added(s0, f, c, e, jump + 1) && p.SetUp(f, c, jump + 1)
      requires !s0.tasklist && !s0.siglock && c.node !in s0.delayed && e.pidNr !in s0.pids && e.fdNr !in s0.fds
      modifies `s
      ensures s == s0
    {
      hide AddStage;
      var n := jump + 1;
      while n > 0
        invariant 0 <= n <= jump + 1 && s == Added(s0, f, c, e, n)
      {
        n := n - 1;
        Untouched(s0, f, c, e, n);
        Rung(p, f, c, e, n, Added(s0, f, c, e, n));
      }
    }

    // ----- Taking the stages -----

    /** Lines 2026-2195, up to the first copy_* helper that may share with the caller. */
    method AcquireEarly(f: Flags, c: Current, e: Env) returns (jump: int)
      requires AllRefs(s)
      modifies `s
      ensures -1 <= jump <= CLEANUP_SECURITY
      ensures jump == -1 <==> EarlyOk(e)
      ensures jump >= 0 ==> s == Added(old(s), f, c, e, jump + 1)
      ensures jump == -1 ==> s == Added(old(s), f, c, e, CLEANUP_SEMUNDO)
    {
      ghost var s0 := s;
      s := AddNode(s, f, c);
      assert s == Added(s0, f, c, e, 1);
      if !e.noSignal || !e.dup { return FORK_OUT; }
      Take(TaskStruct);
      Take(Stack);
      assert s == Added(s0, f, c, e, 2);
      if !e.creds { return BAD_FORK_FREE; }
      s := s.(nproc := s.nproc + 1);
      Take(Creds);
      Take(Nproc);
      assert s == Added(s0, f, c, e, 3);
      if !e.belowLimit || !e.belowMax { return CLEANUP_COUNT; }
      Take(Delay);
      assert s == Added(s0, f, c, e, 4);
      if !e.policy { return CLEANUP_THREADGROUP_LOCK; }
      Take(Policy);
      assert s == Added(s0, f, c, e, 5);
      if !e.sched || !e.perf { return CLEANUP_POLICY; }
      Take(Perf);
      assert s == Added(s0, f, c, e, 6);
      if !e.audit { return CLEANUP_PERF; }
      Take(Audit);
      assert s == Added(s0, f, c, e, 7);
      if !e.security { return CLEANUP_AUDIT; }
      Take(Security);
      assert s == Added(s0, f, c, e, 8);
      return -1;
    }

    /** One more reference to the caller's object: mmget, atomic_inc, refcount_inc and their like. */
    method Get(obj: Obj)
      requires obj in s.refs
      modifies `s
      ensures s == AddRef(old(s), obj, OfCurrent)
    {
      s := s.(refs := s.refs[obj := s.refs[obj] + 1]);
      Take(Shared(obj));
    }

    /** copy_semundo and copy_namespaces, whose code is elsewhere. */
    method CopyOutside(p: Child, f: Flags, c: Current, e: Env, n: nat) returns (ok: bool)
      requires n in {CLEANUP_SEMUNDO, CLEANUP_NAMESPACES} && AllRefs(s) && p.SetUp(f, c, n) && p.Untaken(c, n)
      modifies `s, p
      ensures Copied(this, p, f, c, e, n, ok)
    {
      var obj := ObjOf(n);
      ok := RefOk(obj, f, c, e);
      if ok {
        s := AddRef(s, obj, RefOf(obj, f, c));
        p.Point(obj, RefOf(obj, f, c));
      }
    }

    /** The inherited pointer stays, on an early return, when shared, and when the copy fails. */
    method CopyFiles(p: Child, f: Flags, c: Current, e: Env) returns (ok: bool)
      requires AllRefs(s) && p.SetUp(f, c, CLEANUP_FILES) && p.Untaken(c, CLEANUP_FILES)
      modifies `s, p
      ensures Copied(this, p, f, c, e, CLEANUP_FILES, ok)
      ensures ok <==> (c.hasFiles && !f.files ==> e.files)
      ensures s.refs[Files] == old(s.refs[Files]) + if ok && c.hasFiles && f.files then 1 else 0
      ensures ok ==> p.ref[Files] == if !c.hasFiles then Null else if f.files then OfCurrent else Own
    {
      assert p.ref[ObjOf(CLEANUP_FILES)] == Inherited(Files, c);
      if !c.hasFiles {
        return true;
      }
      if f.files {
        Get(Files);
        return true;
      }
      if !e.files {
        return false;
      }
      Take(New(Files));
      p.Point(Files, Own);
      return true;
    }

    /** A shared fs_struct is counted under its lock, unless it is in exec; a failed copy stores NULL. */
    method CopyFs(p: Child, f: Flags, c: Current, e: Env) returns (ok: bool)
      requires AllRefs(s) && p.SetUp(f, c, CLEANUP_FS) && p.Untaken(c, CLEANUP_FS) && !fsLocked
      modifies this, p
      ensures Copied(this, p, f, c, e, CLEANUP_FS, ok) && !fsLocked
      ensures ok <==> (if f.fs then !c.fsInExec else e.fs)
      ensures s.refs[Fs] == old(s.refs[Fs]) + if ok && f.fs then 1 else 0
      ensures ok ==> p.ref[Fs] == if f.fs then OfCurrent else Own
    {
      assert p.ref[ObjOf(CLEANUP_FS)] == Inherited(Fs, c);
      if f.fs {
        fsLocked := true;
        if c.fsInExec {
          fsLocked := false;
          return false;
        }
        Get(Fs);
        fsLocked := false;
        return true;
      }
      p.Point(Fs, if e.fs then Own else Null);
      if !e.fs {
        return false;
      }
      Take(New(Fs));
      return true;
    }

    /** The pointer is stored before it is tested. */
    method CopySighand(p: Child, f: Flags, c: Current, e: Env) returns (ok: bool)
      requires AllRefs(s) && p.SetUp(f, c, CLEANUP_SIGHAND) && p.Untaken(c, CLEANUP_SIGHAND)
      modifies `s, p
      ensures Copied(this, p, f, c, e, CLEANUP_SIGHAND, ok)
      ensures ok <==> (!f.sighand ==> e.sighand)
      ensures s.refs[Sighand] == old(s.refs[Sighand]) + if ok && f.sighand then 1 else 0
      ensures ok ==> p.ref[Sighand] == if f.sighand then OfCurrent else Own
    {
      assert p.ref[ObjOf(CLEANUP_SIGHAND)] == Inherited(Sighand, c);
      if f.sighand {
        Get(Sighand);
        return true;
      }
      p.Point(Sighand, if e.sighand then Own else Null);
      if !e.sighand {
        return false;
      }
      Take(New(Sighand));
      return true;
    }

    /** A thread keeps the caller's pointer without a count; the ladder knows by the flag. */
    method CopySignal(p: Child, f: Flags, c: Current, e: Env) returns (ok: bool)
      requires AllRefs(s) && p.SetUp(f, c, CLEANUP_SIGNAL) && p.Untaken(c, CLEANUP_SIGNAL)
      modifies `s, p
      ensures Copied(this, p, f, c, e, CLEANUP_SIGNAL, ok)
      ensures ok <==> (!f.thread ==> e.signal)
      ensures s.refs[Signal] == old(s.refs[Signal])
      ensures ok ==> p.ref[Signal] == if f.thread then OfCurrent else Own
    {
      if f.thread {
        return true;
      }
      p.Point(Signal, if e.signal then Own else Null);
      if !e.signal {
        return false;
      }
      Take(New(Signal));
      return true;
    }

    /** The inherited pointer is cleared first, so that a failure leaves none for the ladder. */
    method CopyMm(p: Child, f: Flags, c: Current, e: Env) returns (ok: bool)
      requires AllRefs(s) && p.SetUp(f, c, CLEANUP_MM) && p.Untaken(c, CLEANUP_MM)
      modifies `s, p
      ensures Copied(this, p, f, c, e, CLEANUP_MM, ok)
      ensures ok <==> (c.hasMm && !f.vm ==> e.mm)
      ensures s.refs[Mm] == old(s.refs[Mm]) + if ok && c.hasMm && f.vm then 1 else 0
      ensures ok ==> p.ref[Mm] == if !c.hasMm then Null else if f.vm then OfCurrent else Own
    {
      p.Point(Mm, Null);
      if !c.hasMm {
        return true;
      }
      var mm: Ref;
      if f.vm {
        Get(Mm);
        mm := OfCurrent;
      } else {
        if !e.mm {
          return false;
        }
        Take(New(Mm));
        mm := Own;
      }
      p.Point(Mm, mm);
      return true;
    }

    /** A context of its own comes with an extra reference, which is put again. */
    method CopyIo(p: Child, f: Flags, c: Current, e: Env) returns (ok: bool)
      requires AllRefs(s) && p.SetUp(f, c, CLEANUP_IO) && p.Untaken(c, CLEANUP_IO)
      modifies `s, p
      ensures Copied(this, p, f, c, e, CLEANUP_IO, ok)
      ensures ok <==> (c.hasIo && !f.io && c.ioprioValid ==> e.io)
      ensures s.refs[IoContext] == old(s.refs[IoContext]) + if ok && c.hasIo && f.io then 1 else 0
      ensures ok && c.hasIo ==> p.ref[IoContext] == if f.io then OfCurrent else if c.ioprioValid then Own else Null
      ensures ok && !c.hasIo ==> p.ref[IoContext] == Null
    {
      assert p.ref[ObjOf(CLEANUP_IO)] == Inherited(IoContext, c);
      if !c.hasIo {
        return true;
      }
      if f.io {
        Get(IoContext);
        p.Point(IoContext, OfCurrent);
      } else if c.ioprioValid {
        if !e.io {
          return false;
        }
        Take(New(IoContext));
        p.Point(IoContext, Own);
        ghost var got := s;
        Take(Extra(IoContext));
        Drop(Extra(IoContext));
        assert s.held == got.held;
      }
      return true;
    }

    method AcquireShared(p: Child, f: Flags, c: Current, e: Env, ghost s0: State) returns (jump: int)
      requires AllRefs(s0) && s == Added(s0, f, c, e, CLEANUP_SEMUNDO) && p.SetUp(f, c, CLEANUP_SEMUNDO)
      requires p.Untaken(c, CLEANUP_SEMUNDO) && !fsLocked
      modifies this, p
      ensures !fsLocked
      ensures -1 <= jump <= CLEANUP_NAMESPACES
      ensures jump == -1 <==> SharedOk(f, c, e)
      ensures jump >= 0 ==> s == Added(s0, f, c, e, jump + 1) && p.SetUp(f, c, jump + 1)
      ensures jump == -1 ==> s == Added(s0, f, c, e, CLEANUP_THREAD) && p.SetUp(f, c, CLEANUP_THREAD)
      ensures jump == -1 ==> p.Whole() && p.ref[Signal] == if f.thread then OfCurrent else Own
    {
      hide AddStage, Child.SetUp, Child.Untaken, RefOk, AllRefs, RefOf, Inherited;
      var ok := CopyOutside(p, f, c, e, CLEANUP_SEMUNDO);
      if !ok { return CLEANUP_SECURITY; }
      assert s == Added(s0, f, c, e, CLEANUP_FILES);
      ok := CopyFiles(p, f, c, e);
      if !ok { return CLEANUP_SEMUNDO; }
      assert s == Added(s0, f, c, e, CLEANUP_FS);
      ok := CopyFs(p, f, c, e);
      if !ok { return CLEANUP_FILES; }
      assert s == Added(s0, f, c, e, CLEANUP_SIGHAND);
      ok := CopySighand(p, f, c, e);
      if !ok { return CLEANUP_FS; }
      assert s == Added(s0, f, c, e, CLEANUP_SIGNAL);
      ok := CopySignal(p, f, c, e);
      if !ok { return CLEANUP_SIGHAND; }
      ghost var signal := p.ref[Signal];
      assert s == Added(s0, f, c, e, CLEANUP_MM);
      ok := CopyMm(p, f, c, e);
      if !ok { return CLEANUP_SIGNAL; }
      assert s == Added(s0, f, c, e, CLEANUP_NAMESPACES) && p.ref[Signal] == signal;
      ok := CopyOutside(p, f, c, e, CLEANUP_NAMESPACES);
      if !ok { return CLEANUP_MM; }
      assert s == Added(s0, f, c, e, CLEANUP_IO) && p.ref[Signal] == signal;
      ok := CopyIo(p, f, c, e);
      if !ok { return CLEANUP_NAMESPACES; }
      assert s == Added(s0, f, c, e, CLEANUP_THREAD);
      return -1;
    }

    /** The pidfd: a descriptor and a file with a reference to the pid; a failed file gives the descriptor back. */
    method TakePidfd(f: Flags, e: Env) returns (ok: bool)
      requires e.fdNr !in s.fds && f.pidfd
      modifies `s
      ensures ok <==> e.fd && e.pidfile
      ensures s == if ok then AddPidfd(old(s), f, e) else old(s)
    {
      if !e.fd { return false; }
      ghost var before := s;
      s := s.(fds := s.fds + {e.fdNr});
      Take(Fd);
      if !e.pidfile {
        Drop(Fd);
        s := s.(fds := s.fds - {e.fdNr});
        assert s.held == before.held && s.fds == before.fds;
        return false;
      }
      s := s.(pidRefs := s.pidRefs + 1);
      Take(PidFile);
      return true;
    }

    /** copy_thread, alloc_pid and the pidfd. */
    method AcquirePid(f: Flags, c: Current, e: Env, ghost s0: State) returns (jump: int)
      requires AllRefs(s0) && s == Added(s0, f, c, e, CLEANUP_THREAD) && e.fdNr !in s.fds
      modifies `s
      ensures CLEANUP_IO <= jump <= PUT_PIDFD || jump == -1
      ensures jump == -1 <==> KvReached(f, c, e)
      ensures s == Added(s0, f, c, e, if jump == -1 then CANCEL_CGROUP_FORK else jump + 1)
    {
      hide AddRef, RefOf, ObjOf, AddNode;
      if !e.thread { return CLEANUP_IO; }
      Take(Thread);
      assert s == Added(s0, f, c, e, FREE_PID);
      if !c.idle {
        if !e.pid { return CLEANUP_THREAD; }
        s := s.(pids := s.pids + {e.pidNr});
        Take(Pid);
      }
      assert s == Added(s0, f, c, e, PUT_PIDFD);
      if f.pidfd {
        var ok := TakePidfd(f, e);
        if !ok { return FREE_PID; }
        if !e.putUser { return PUT_PIDFD; }
      }
      return -1;
    }

    /**
     * Lines 2263-2380: the kv store, the cgroup and the two locks.  `s1` is the entry state
     * together with the kv store of a new process.
     */
    method AcquireLate(f: Flags, c: Current, e: Env, ghost s0: State, ghost s1: State) returns (jump: int)
      requires AllRefs(s0) && s == Added(s0, f, c, e, CANCEL_CGROUP_FORK)
      requires s1 == s0.(kvStores := s0.kvStores + if f.thread then 0 else 1)
      modifies `s
      ensures jump == -1 || jump == PUT_PIDFD || jump == CANCEL_CGROUP
      ensures jump == -1 <==> e.cgroup && e.nsAlive && e.notKilled
      ensures s == Added(s1, f, c, e, if jump == PUT_PIDFD then CANCEL_CGROUP_FORK else CANCEL_CGROUP + 1)
    {
      KvCommutes(s0, f, c, e, CANCEL_CGROUP_FORK, s1.kvStores);
      Untouched(s0, f, c, e, CANCEL_CGROUP_FORK);
      if !f.thread { s := s.(kvStores := s.kvStores + 1); }
      assert s == Added(s1, f, c, e, CANCEL_CGROUP_FORK);
      if !e.cgroup { return PUT_PIDFD; }
      Take(Cgroup);
      assert s == Added(s1, f, c, e, CANCEL_CGROUP);
      s := s.(tasklist := true);
      Take(TasklistLock);
      s := s.(siglock := true);
      Take(Siglock);
      assert s == Added(s1, f, c, e, CANCEL_CGROUP + 1);
      if !e.nsAlive || !e.notKilled { return CANCEL_CGROUP; }
      return -1;
    }

    /** Lines 2391-2432, under both locks: a thread joins its group's signal_struct. */
    method Attach(f: Flags, c: Current)
      requires Signal in s.refs && s.tasklist && s.siglock
      modifies `s
      ensures s == old(s).(tally := Attached(old(s).tally, f, c), refs := s.refs)
      ensures s.refs == old(s).refs[Signal := old(s).refs[Signal] + if f.thread && !c.idle then 1 else 0]
    {
      if !c.idle {
        if f.thread {
          s := s.(tally := s.tally.(nrThreads := s.tally.nrThreads + 1));
          s := s.(tally := s.tally.(live := s.tally.live + 1));
          s := s.(refs := s.refs[Signal := s.refs[Signal] + 1]);
        }
        s := s.(tally := s.tally.(threads := s.tally.threads + 1));
      }
      s := s.(tally := s.tally.(forks := s.tally.forks + 1));
    }

    /**
     * copy_process.  It succeeds exactly when every call does that the flags ask for.  On failure
     * every count, every allocator, every list and both locks are as they were at entry, whatever
     * the flags and whichever call failed, except that a new process keeps the kv store it had
     * already been given.  On success the flags say what the child shares, and the caller's objects
     * have one reference more where it does.
     */
    method CopyProcess(f: Flags, c: Current, e: Env) returns (child: Child?)
      requires AllRefs(s) && s.held == [] && !s.tasklist && !s.siglock
      requires c.node !in s.delayed && e.pidNr !in s.pids && e.fdNr !in s.fds && !fsLocked
      modifies this
      ensures !fsLocked && AllRefs(s) && (child != null ==> fresh(child) && child.Whole())
      ensures child != null <==> Succeeds(f, c, e)
      ensures child == null ==> s == old(s).(kvStores := old(s).kvStores + if KvLeaked(f, c, e) then 1 else 0)
      ensures child != null ==> s == Committed(old(s), f, c, e)
      ensures child != null ==> ChildSees(child.ref, f, c) && CountedFor(old(s), s, f, c)
    {
      hide AddStage, Added, AllRefs, Child.SetUp, SharedOk, EarlyOk, KvReached, Accepted;
      hide ChildSees, CountedFor, Succeeds, Without, Child.Untaken, Attached, SharedAtLast;
      ghost var s0 := s;
      OkByFlags(f, c, e);
      if !Accepted(f, c) {
        return null;
      }
      var jump := AcquireEarly(f, c, e);
      var p := new Child(c);
      p.Point(IoContext, Null);
      FreshChild(p, f, c);
      if jump >= 0 {
        Unwind(p, f, c, e, jump, s0);
        return null;
      }
      jump := AcquireShared(p, f, c, e, s0);
      if jump >= 0 {
        Unwind(p, f, c, e, jump, s0);
        return null;
      }
      Untouched(s0, f, c, e, CLEANUP_THREAD);
      jump := AcquirePid(f, c, e, s0);
      if jump >= 0 {
        SetUpMore(p, f, c, jump + 1);
        Unwind(p, f, c, e, jump, s0);
        return null;
      }
      ghost var s1 := s0.(kvStores := s0.kvStores + if f.thread then 0 else 1);
      SameRefs(s0, s1);
      jump := AcquireLate(f, c, e, s0, s1);
      if jump >= 0 {
        SetUpMore(p, f, c, jump + 1);
        Unwind(p, f, c, e, jump, s1);
        return null;
      }
      Totals(s1, f, c, e);
      Attach(f, c);
      s := s.(delayed := Without(s.delayed, c.node), siglock := false, tasklist := false, held := []);
      Outcome(s0, f, c, e);
      Pointers(p, f, c);
      return p;
    }
  }

  /** What the pointers of the new task lead to, flag by flag. */
  ghost predicate ChildSees(ref: map<Obj, Ref>, f: Flags, c: Current)
    requires forall obj: Obj :: obj in ref
  {
    && ref[UndoList] == (if f.sysvsem then OfCurrent else Null)
    && ref[Files] == (if !c.hasFiles then Null else if f.files then OfCurrent else Own)
    && ref[Fs] == (if f.fs then OfCurrent else Own)
    && ref[Sighand] == (if f.sighand then OfCurrent else Own)
    && ref[Signal] == (if f.thread then OfCurrent else Own)
    && ref[Mm] == (if !c.hasMm then Null else if f.vm then OfCurrent else Own)
    && ref[Nsproxy] == (if f.newNs then Own else OfCurrent)
    && ref[IoContext] == (if c.hasIo && f.io then OfCurrent else if c.hasIo && c.ioprioValid then Own else Null)
  }

  /** Which counts have gone up by one for the new task, flag by flag. */
  ghost predicate CountedFor(s: State, t: State, f: Flags, c: Current)
    requires AllRefs(s) && AllRefs(t)
  {
    && t.refs[UndoList] == s.refs[UndoList] + (if f.sysvsem then 1 else 0)
    && t.refs[Files] == s.refs[Files] + (if f.files && c.hasFiles then 1 else 0)
    && t.refs[Fs] == s.refs[Fs] + (if f.fs then 1 else 0)
    && t.refs[Sighand] == s.refs[Sighand] + (if f.sighand then 1 else 0)
    && t.refs[Signal] == s.refs[Signal] + (if f.thread && !c.idle then 1 else 0)
    && t.refs[Mm] == s.refs[Mm] + (if f.vm && c.hasMm then 1 else 0)
    && t.refs[Nsproxy] == s.refs[Nsproxy] + (if f.newNs then 0 else 1)
    && t.refs[IoContext] == s.refs[IoContext] + (if f.io && c.hasIo then 1 else 0)
    && t.tally.nrThreads == s.tally.nrThreads + (if f.thread && !c.idle then 1 else 0)
    && t.tally.live == s.tally.live + (if f.thread && !c.idle then 1 else 0)
    && t.tally.threads == s.tally.threads + (if c.idle then 0 else 1)
    && t.tally.forks == s.tally.forks + 1 && t.nproc == s.nproc + 1
    && t.kvStores == s.kvStores + (if f.thread then 0 else 1)
  }

  lemma Outcome(s: State, f: Flags, c: Current, e: Env)
    requires AllRefs(s)
    ensures AllRefs(Committed(s, f, c, e)) && CountedFor(s, Committed(s, f, c, e), f, c)
  {
  }

  lemma Pointers(p: Child, f: Flags, c: Current)
    requires p.SetUp(f, c, CLEANUP_THREAD) && p.Whole() && p.ref[Signal] == if f.thread then OfCurrent else Own
    ensures ChildSees(p.ref, f, c)
  {
    forall obj | obj != Signal ensures p.ref[obj] == RefOf(obj, f, c) {
      assert p.ref[ObjOf(StageOf(obj))] == RefOf(ObjOf(StageOf(obj)), f, c);
    }
  }

  /** The kernel state after a successful copy_process; what the call held belongs to the new task now. */
  ghost function Committed(s: State, f: Flags, c: Current, e: Env): State {
    s.(refs := map obj | obj in s.refs :: s.refs[obj] + if SharedAtLast(obj, f, c) then 1 else 0,
       tally := Attached(s.tally, f, c),
       nproc := s.nproc + 1,
       pids := s.pids + if c.idle then {} else {e.pidNr},
       fds := s.fds + if f.pidfd then {e.fdNr} else {},
       pidRefs := s.pidRefs + if f.pidfd then 1 else 0,
       kvStores := s.kvStores + if f.thread then 0 else 1)
  }

  /** The new task shares the object: by its copy_* helper, or a thread its signal_struct when it is attached. */
  predicate SharedAtLast(obj: Obj, f: Flags, c: Current) {
    RefOf(obj, f, c) == OfCurrent || (obj == Signal && f.thread && !c.idle)
  }

  /** The counters after the attachment; an idle task is not attached. */
  function Attached(t: Tally, f: Flags, c: Current): Tally {
    var group := if f.thread && !c.idle then 1 else 0;
    Tally(t.nrThreads + group, t.live + group, t.threads + (if c.idle then 0 else 1), t.forks + 1)
  }

  lemma FreshChild(p: Child, f: Flags, c: Current)
    requires p.Whole() && forall obj :: p.ref[obj] == Inherited(obj, c)
    ensures p.Untaken(c, CLEANUP_SEMUNDO) && forall n: nat :: n <= CLEANUP_SEMUNDO ==> p.SetUp(f, c, n)
  {
  }

  lemma SetUpMore(p: Child, f: Flags, c: Current, n: nat)
    requires p.SetUp(f, c, CLEANUP_THREAD)
    ensures p.SetUp(f, c, n)
  {
  }

  lemma SameRefs(s: State, t: State)
    requires AllRefs(s) && t.refs == s.refs
    ensures AllRefs(t)
  {
  }

  function StageOf(obj: Obj): (n: nat)
    ensures IsRefStage(n) && ObjOf(n) == obj
  {
    match obj
    case UndoList => CLEANUP_SEMUNDO
    case Files => CLEANUP_FILES
    case Fs => CLEANUP_FS
    case Sighand => CLEANUP_SIGHAND
    case Signal => CLEANUP_SIGNAL
    case Mm => CLEANUP_MM
    case Nsproxy => CLEANUP_NAMESPACES
    case IoContext => CLEANUP_IO
  }

  lemma RefStageTotals(s: State, obj: Obj, ref: Ref, other: Obj)
    requires AllRefs(s)
    ensures var t := AddRef(s, obj, ref);
      && other in t.refs && t == s.(refs := t.refs, held := t.held)
      && t.refs[other] == s.refs[other] + (if ref == OfCurrent && other == obj then 1 else 0)
  {
  }

  lemma RefStageIs(s: State, f: Flags, c: Current, e: Env, n: nat)
    requires AllRefs(s) && IsRefStage(n)
    ensures AddStage(s, f, c, e, n) == AddRef(s, ObjOf(n), RefOf(ObjOf(n), f, c)) && StageOf(ObjOf(n)) == n
  {
  }

  /** A stage that takes no reference leaves all references alone. */
  lemma OtherStageTotals(s: State, f: Flags, c: Current, e: Env, n: nat)
    requires AllRefs(s) && n <= CANCEL_CGROUP && !IsRefStage(n)
    ensures var t := AddStage(s, f, c, e, n);
      && t.refs == s.refs
      && t.nproc == s.nproc + (if n == CLEANUP_COUNT then 1 else 0)
      && t.pids == s.pids + (if n == FREE_PID && !c.idle then {e.pidNr} else {})
      && t.fds == s.fds + (if n == PUT_PIDFD && f.pidfd then {e.fdNr} else {})
      && t.pidRefs == s.pidRefs + (if n == PUT_PIDFD && f.pidfd then 1 else 0)
      && t.delayed == (if n == FORK_OUT && !f.thread then [c.node] else []) + s.delayed
      && t.kvStores == s.kvStores && t.tally == s.tally
      && (n < CANCEL_CGROUP ==> t.tasklist == s.tasklist && t.siglock == s.siglock)
  {
    hide AddRef, RefOf, ObjOf, PlainRes;
    assert [] + s.delayed == s.delayed;
  }

  /** What one stage adds to each total. */
  lemma StageTotals(s: State, f: Flags, c: Current, e: Env, n: nat, obj: Obj)
    requires AllRefs(s) && n <= CANCEL_CGROUP
    ensures var t := AddStage(s, f, c, e, n);
      && obj in t.refs
      && t.refs[obj] == s.refs[obj] + (if RefOf(obj, f, c) == OfCurrent && n == StageOf(obj) then 1 else 0)
      && t.nproc == s.nproc + (if n == CLEANUP_COUNT then 1 else 0)
      && t.pids == s.pids + (if n == FREE_PID && !c.idle then {e.pidNr} else {})
      && t.fds == s.fds + (if n == PUT_PIDFD && f.pidfd then {e.fdNr} else {})
      && t.pidRefs == s.pidRefs + (if n == PUT_PIDFD && f.pidfd then 1 else 0)
      && t.delayed == (if n == FORK_OUT && !f.thread then [c.node] else []) + s.delayed
      && t.kvStores == s.kvStores && t.tally == s.tally
      && (n < CANCEL_CGROUP ==> t.tasklist == s.tasklist && t.siglock == s.siglock)
  {
    hide AddStage, AddRef, RefOf, ObjOf, StageOf;
    if IsRefStage(n) {
      RefStageIs(s, f, c, e, n);
      RefStageTotals(s, ObjOf(n), RefOf(ObjOf(n), f, c), obj);
      assert [] + s.delayed == s.delayed;
    } else {
      OtherStageTotals(s, f, c, e, n);
    }
  }

  /** What a stage finds untouched because no earlier stage changes it. */
  lemma {:induction false} Untouched(s: State, f: Flags, c: Current, e: Env, n: nat)
    requires AllRefs(s) && n <= CANCEL_CGROUP
    ensures var t := Added(s, f, c, e, n);
      && t.tasklist == s.tasklist && t.siglock == s.siglock && t.kvStores == s.kvStores
      && (n <= FREE_PID ==> t.pids == s.pids) && (n <= PUT_PIDFD ==> t.fds == s.fds)
  {
    hide AddStage, AllRefs;
    if n > 0 {
      Untouched(s, f, c, e, n - 1);
      StageTotals(Added(s, f, c, e, n - 1), f, c, e, n - 1, Files);
    }
  }

  lemma {:induction false} TotalsAt(s: State, f: Flags, c: Current, e: Env, n: nat, obj: Obj)
    requires AllRefs(s) && n <= CANCEL_CGROUP + 1
    ensures var t := Added(s, f, c, e, n);
      && obj in t.refs
      && t.refs[obj] == s.refs[obj] + (if RefOf(obj, f, c) == OfCurrent && n > StageOf(obj) then 1 else 0)
      && t.nproc == s.nproc + (if n > CLEANUP_COUNT then 1 else 0)
      && t.pids == s.pids + (if n > FREE_PID && !c.idle then {e.pidNr} else {})
      && t.fds == s.fds + (if n > PUT_PIDFD && f.pidfd then {e.fdNr} else {})
      && t.pidRefs == s.pidRefs + (if n > PUT_PIDFD && f.pidfd then 1 else 0)
      && t.delayed == (if n > FORK_OUT && !f.thread then [c.node] else []) + s.delayed
      && t.kvStores == s.kvStores && t.tally == s.tally
  {
    hide AddStage, RefOf, StageOf;
    if n > 0 {
      TotalsAt(s, f, c, e, n - 1, obj);
      StageTotals(Added(s, f, c, e, n - 1), f, c, e, n - 1, obj);
    }
    assert [] + s.delayed == s.delayed;
  }

  /** All stages together and the attachment make exactly the committed state, but for the node and the locks. */
  lemma Totals(s: State, f: Flags, c: Current, e: Env)
    requires AllRefs(s) && c.node !in s.delayed
    ensures var t, u := Added(s, f, c, e, CANCEL_CGROUP + 1), Committed(s, f, c, e);
      && Signal in t.refs && t.tasklist && t.siglock
      && t.refs[Signal := t.refs[Signal] + if f.thread && !c.idle then 1 else 0] == u.refs
      && t.nproc == u.nproc && t.pids == u.pids && t.fds == u.fds && t.pidRefs == u.pidRefs
      && t.kvStores == s.kvStores && t.tally == s.tally && Without(t.delayed, c.node) == s.delayed
  {
    hide AddStage, Added, RefOf, StageOf, Without;
    var t := Added(s, f, c, e, CANCEL_CGROUP + 1);
    TotalsAt(s, f, c, e, CANCEL_CGROUP + 1, Signal);
    LocksTaken(s, f, c, e);
    SignalIsNotShared(f, c);
    forall obj ensures obj in t.refs && t.refs[obj] == s.refs[obj] + if RefOf(obj, f, c) == OfCurrent then 1 else 0 {
      TotalsAt(s, f, c, e, CANCEL_CGROUP + 1, obj);
    }
    WithoutNew(s.delayed, c.node);
    assert [] + s.delayed == s.delayed;
  }

  lemma SignalIsNotShared(f: Flags, c: Current)
    ensures RefOf(Signal, f, c) != OfCurrent
  {
  }

  lemma LocksTaken(s: State, f: Flags, c: Current, e: Env)
    requires AllRefs(s)
    ensures Added(s, f, c, e, CANCEL_CGROUP + 1).tasklist && Added(s, f, c, e, CANCEL_CGROUP + 1).siglock
  {
  }

  /** Everything that can fail succeeds. */
  predicate AllOk(f: Flags, c: Current, e: Env) {
    Accepted(f, c) && EarlyOk(e) && SharedOk(f, c, e) && KvReached(f, c, e) && e.cgroup && e.nsAlive && e.notKilled
  }

  /** The flags are accepted, and every call that they ask for succeeds. */
  predicate Succeeds(f: Flags, c: Current, e: Env) {
    && !(f.fs && (f.newMnt || f.newUser)) && (f.thread ==> f.sighand) && (f.sighand ==> f.vm)
    && (f.parent ==> !c.unkillable) && (f.thread ==> !f.newUser && !f.newPid && c.samePidNs && !f.pidfd)
    && (f.vm ==> c.sameTimeNs) && (f.pidfd ==> !f.detached)
    && e.noSignal && e.dup && e.creds && e.belowLimit && e.belowMax && e.policy && e.sched && e.perf && e.audit
    && e.security && (f.sysvsem ==> e.semundo) && (c.hasFiles && !f.files ==> e.files)
    && (if f.fs then !c.fsInExec else e.fs) && (!f.sighand ==> e.sighand) && (!f.thread ==> e.signal)
    && (c.hasMm && !f.vm ==> e.mm) && (f.newNs ==> e.namespaces)
    && (c.hasIo && !f.io && c.ioprioValid ==> e.io) && e.thread && (!c.idle ==> e.pid)
    && (f.pidfd ==> e.fd && e.pidfile && e.putUser) && e.cgroup && e.nsAlive && e.notKilled
  }

  lemma OkByFlags(f: Flags, c: Current, e: Env)
    ensures AllOk(f, c, e) <==> Succeeds(f, c, e)
  {
  }

  /** A failed fork of a new process has got past the kv store step. */
  predicate KvLeaked(f: Flags, c: Current, e: Env) {
    !f.thread && Accepted(f, c) && EarlyOk(e) && SharedOk(f, c, e) && KvReached(f, c, e) && !AllOk(f, c, e)
  }

  /** The kv store step is reached: everything before it succeeded. */
  predicate KvReached(f: Flags, c: Current, e: Env) {
    e.thread && (c.idle || e.pid) && (f.pidfd ==> e.fd && e.pidfile && e.putUser)
  }

  lemma StageKeepsKv(s: State, f: Flags, c: Current, e: Env, n: nat, x: int)
    requires AllRefs(s)
    ensures AddStage(s.(kvStores := x), f, c, e, n) == AddStage(s, f, c, e, n).(kvStores := x)
  {
    var t := s.(kvStores := x);
    assert AllRefs(t);
    if IsRefStage(n) {
      var obj := ObjOf(n);
      match RefOf(obj, f, c) {
        case Null =>
        case Own =>
        case OfCurrent =>
          assert AddRef(t, obj, OfCurrent) == AddRef(s, obj, OfCurrent).(kvStores := x);
      }
    }
  }

  lemma {:induction false} KvCommutes(s: State, f: Flags, c: Current, e: Env, n: nat, x: int)
    requires AllRefs(s)
    ensures Added(s.(kvStores := x), f, c, e, n) == Added(s, f, c, e, n).(kvStores := x)
  {
    hide AddStage;
    if n > 0 {
      KvCommutes(s, f, c, e, n - 1, x);
      StageKeepsKv(Added(s, f, c, e, n - 1), f, c, e, n - 1, x);
    }
  }

  /** A copy_* helper fails only if it has to allocate, or to join an fs_struct that is in exec. */
  predicate RefOk(obj: Obj, f: Flags, c: Current, e: Env) {
    match obj
    case UndoList => !f.sysvsem || e.semundo
    case Files => RefOf(Files, f, c) != Own || e.files
    case Fs => if f.fs then !c.fsInExec else e.fs
    case Sighand => f.sighand || e.sighand
    case Signal => f.thread || e.signal
    case Mm => RefOf(Mm, f, c) != Own || e.mm
    case Nsproxy => !f.newNs || e.namespaces
    case IoContext => RefOf(IoContext, f, c) != Own || e.io
  }

  predicate SharedOk(f: Flags, c: Current, e: Env) {
    && RefOk(UndoList, f, c, e) && RefOk(Files, f, c, e) && RefOk(Fs, f, c, e) && RefOk(Sighand, f, c, e)
    && RefOk(Signal, f, c, e) && RefOk(Mm, f, c, e) && RefOk(Nsproxy, f, c, e) && RefOk(IoContext, f, c, e)
  }

  predicate EarlyOk(e: Env) {
    e.noSignal && e.dup && e.creds && e.belowLimit && e.belowMax && e.policy && e.sched && e.perf && e.audit &&
        e.security
  }
}
