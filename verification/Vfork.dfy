/**
 * vfork: the parent puts a completion on its own stack, hands the child a pointer to it and
 * sleeps until the child gives the address space back or the parent is killed.  Any number of
 * tasks fork, vfork, exec and exit; every task may be a child and a parent in turn.  Touching a
 * completion whose stack frame is gone, or a task_struct that was freed, sets `crashed`.
 */
module Vfork {
  import opened Lists

  /** Where a task stands. `c` is the child it vforked, `f` the stack frame of that call. */
  datatype Pc =
    | Unborn
    | User
    // kernel_clone and wait_for_vfork_done
    | Setup(c: nat, f: nat)
    | Wake(c: nat, f: nat)
    | Waiting(c: nat, f: nat)
    | Killed(c: nat, f: nat)
    | KillLocked(c: nat, f: nat)
    | KillCleared(c: nat, f: nat)
    | Putting(c: nat, f: nat, killed: bool)
    | Leaving(c: nat, f: nat, killed: bool)
    // mm_release and complete_vfork_done
    | Testing
    | Locking
    | Locked
    | Completing(f: nat)
    | Unlocking
    | MmReleased
    | Dead
    | Gone

  /** `creator` is the caller and the frame of the vfork that made this task. */
  datatype Task = Task(pc: Pc, vforkDone: Option<nat>, lock: Option<nat>, usage: int, released: bool,
                       creator: Option<(nat, nat)>)

  /** An on-stack completion: `done` is its counter, `completed` how often complete() ran on it. */
  datatype Frame = Frame(owner: nat, child: nat, done: nat, completed: nat)

  datatype State = State(tasks: map<nat, Task>, frames: map<nat, Frame>, crashed: bool)

  datatype Action =
    | Fork(t: nat, c: nat)
    | CopyVfork(t: nat, c: nat, f: nat)
    | SetVforkDone(t: nat)
    | WakeUp(t: nat)
    | WaitReturns(t: nat)
    | WaitKilled(t: nat)
    | KillLock(t: nat)
    | KillClear(t: nat)
    | KillUnlock(t: nat)
    | PutChild(t: nat)
    | LeaveClone(t: nat)
    | EnterRelease(t: nat)
    | TestVforkDone(t: nat)
    | TaskLock(t: nat)
    | TakeVforkDone(t: nat)
    | Complete(t: nat)
    | TaskUnlock(t: nat)
    | ExecDone(t: nat)
    | ExitDone(t: nat)
    | DropSelf(t: nat)

  function Init(): State {
    State(map[0 := Task(User, None, None, 1, false, None)], map[], false)
  }

  /** The parent's frame is on its stack until kernel_clone returns. */
  predicate HasFrame(pc: Pc, f: nat) {
    match pc
    case Wake(_, g) => g == f
    case Waiting(_, g) => g == f
    case Killed(_, g) => g == f
    case KillLocked(_, g) => g == f
    case KillCleared(_, g) => g == f
    case Putting(_, g, _) => g == f
    case Leaving(_, g, _) => g == f
    case _ => false
  }

  predicate LiveFrame(s: State, f: nat) {
    f in s.frames && s.frames[f].owner in s.tasks && HasFrame(s.tasks[s.frames[f].owner].pc, f)
  }

  predicate Freed(s: State, c: nat) {
    c !in s.tasks || s.tasks[c].usage <= 0
  }

  predicate Enabled(s: State, a: Action) {
    a.t in s.tasks &&
    var pc := s.tasks[a.t].pc;
    match a
    case Fork(_, c) => pc.User? && c !in s.tasks
    case CopyVfork(_, c, f) => pc.User? && c !in s.tasks && f !in s.frames
    case SetVforkDone(_) => pc.Setup? && pc.c in s.tasks
    case WakeUp(_) => pc.Wake? && pc.c in s.tasks
    case WaitReturns(_) => pc.Waiting? && pc.f in s.frames && s.frames[pc.f].done > 0
    case WaitKilled(_) => pc.Waiting?
    case KillLock(_) => pc.Killed? && pc.c in s.tasks && (Freed(s, pc.c) || s.tasks[pc.c].lock.None?)
    case KillClear(_) => pc.KillLocked? && pc.c in s.tasks
    case KillUnlock(_) => pc.KillCleared? && pc.c in s.tasks
    case PutChild(_) => pc.Putting? && pc.c in s.tasks
    case LeaveClone(_) => pc.Leaving?
    case EnterRelease(_) => pc.User?
    case TestVforkDone(_) => pc.Testing?
    case TaskLock(_) => pc.Locking? && s.tasks[a.t].lock.None?
    case TakeVforkDone(_) => pc.Locked?
    case Complete(_) => pc.Completing? && pc.f in s.frames
    case TaskUnlock(_) => pc.Unlocking?
    case ExecDone(_) => pc.MmReleased?
    case ExitDone(_) => pc.MmReleased?
    case DropSelf(_) => pc.Dead?
  }

  function Go(s: State, t: nat, pc: Pc): State
    requires t in s.tasks
  {
    s.(tasks := s.tasks[t := s.tasks[t].(pc := pc)])
  }

  /** Change the child `c` and move the parent on, unless the child's task_struct is gone. */
  function OnChild(s: State, t: nat, pc: Pc, c: nat, child: Task): State
    requires t in s.tasks
  {
    if Freed(s, c) then s.(crashed := true) else Go(s.(tasks := s.tasks[c := child]), t, pc)
  }

  function Do(s: State, a: Action): State
    requires Enabled(s, a)
  {
    var t := a.t;
    var me := s.tasks[t];
    match a
    case Fork(_, c) => s.(tasks := s.tasks[c := Task(User, None, None, 1, false, None)])
    case CopyVfork(_, c, f) =>
      Go(s.(tasks := s.tasks[c := Task(Unborn, None, None, 1, false, Some((t, f)))],
            frames := s.frames[f := Frame(t, c, 0, 0)]), t, Setup(c, f))
    case SetVforkDone(_) =>
      var child := s.tasks[me.pc.c];
      OnChild(s, t, Wake(me.pc.c, me.pc.f), me.pc.c, child.(vforkDone := Some(me.pc.f), usage := child.usage + 1))
    case WakeUp(_) => OnChild(s, t, Waiting(me.pc.c, me.pc.f), me.pc.c, s.tasks[me.pc.c].(pc := User))
    case WaitReturns(_) =>
      var fr := s.frames[me.pc.f];
      Go(s.(frames := s.frames[me.pc.f := fr.(done := fr.done - 1)]), t, Putting(me.pc.c, me.pc.f, false))
    case WaitKilled(_) => Go(s, t, Killed(me.pc.c, me.pc.f))
    case KillLock(_) => OnChild(s, t, KillLocked(me.pc.c, me.pc.f), me.pc.c, s.tasks[me.pc.c].(lock := Some(t)))
    case KillClear(_) => OnChild(s, t, KillCleared(me.pc.c, me.pc.f), me.pc.c, s.tasks[me.pc.c].(vforkDone := None))
    case KillUnlock(_) => OnChild(s, t, Putting(me.pc.c, me.pc.f, true), me.pc.c, s.tasks[me.pc.c].(lock := None))
    case PutChild(_) =>
      var child := s.tasks[me.pc.c];
      OnChild(s, t, Leaving(me.pc.c, me.pc.f, me.pc.killed), me.pc.c, child.(usage := child.usage - 1))
    case LeaveClone(_) => Go(s, t, User)
    case EnterRelease(_) => s.(tasks := s.tasks[t := me.(pc := Testing, released := true)])
    case TestVforkDone(_) => Go(s, t, if me.vforkDone.None? then MmReleased else Locking)
    case TaskLock(_) => s.(tasks := s.tasks[t := me.(pc := Locked, lock := Some(t))])
    case TakeVforkDone(_) =>
      if me.vforkDone.None? then Go(s, t, Unlocking)
      else s.(tasks := s.tasks[t := me.(pc := Completing(me.vforkDone.value), vforkDone := None)])
    case Complete(_) =>
      var fr := s.frames[me.pc.f];
      if !LiveFrame(s, me.pc.f) then s.(crashed := true)
      else Go(s.(frames := s.frames[me.pc.f := fr.(done := fr.done + 1, completed := fr.completed + 1)]), t, Unlocking)
    case TaskUnlock(_) => s.(tasks := s.tasks[t := me.(pc := MmReleased, lock := None)])
    case ExecDone(_) => Go(s, t, User)
    case ExitDone(_) => Go(s, t, Dead)
    case DropSelf(_) => s.(tasks := s.tasks[t := me.(pc := Gone, usage := me.usage - 1)])
  }

  function Exec(acts: seq<Action>): Option<State> {
    if acts == [] then Some(Init())
    else
      var r := Exec(acts[..|acts| - 1]);
      var a := acts[|acts| - 1];
      if r.Some? && Enabled(r.value, a) then Some(Do(r.value, a)) else None
  }

  // ----- The invariant: what a child, its vfork caller and the frame between them agree on -----

  predicate InClone(pc: Pc) {
    pc.Setup? || pc.Wake? || pc.Waiting? || pc.Killed? || pc.KillLocked? || pc.KillCleared? || pc.Putting? ||
        pc.Leaving?
  }

  /** The caller's position in the call that made `c` on frame `f`; User when it is elsewhere. */
  function Stage(pc: Pc, c: nat, f: nat): Pc {
    if InClone(pc) && pc.c == c && pc.f == f then pc else User
  }

  /** The caller has a count on the child. */
  predicate Holds(stage: Pc) {
    stage.Wake? || stage.Waiting? || stage.Killed? || stage.KillLocked? || stage.KillCleared? || stage.Putting?
  }

  /** The child may still reach the caller's completion. */
  predicate Expects(stage: Pc) {
    stage.Wake? || stage.Waiting? || stage.Killed? || stage.KillLocked?
  }

  predicate HoldsOwnLock(pc: Pc) {
    pc.Locked? || pc.Completing? || pc.Unlocking?
  }

  function SelfCount(x: Task): int {
    if x.pc.Gone? then 0 else 1
  }

  ghost predicate Own(c: nat, x: Task) {
    && (HoldsOwnLock(x.pc) <==> x.lock == Some(c))
    && (x.pc.Testing? || x.pc.Locking? || HoldsOwnLock(x.pc) || x.pc.MmReleased? || x.pc.Dead? || x.pc.Gone? ==>
          x.released)
    && (x.released && !x.pc.Testing? && !x.pc.Locking? && !x.pc.Locked? ==> x.vforkDone.None?)
    && (x.pc.Unborn? ==> !x.released)
  }

  /** A task that no vfork made. */
  ghost predicate Lone(c: nat, x: Task) {
    && x.usage == SelfCount(x) && x.vforkDone.None? && !x.pc.Completing? && !x.pc.Unborn?
    && (x.lock.Some? ==> x.lock == Some(c))
  }

  ghost predicate Pair(c: nat, x: Task, t: nat, f: nat, stage: Pc, fr: Frame) {
    && x.usage == SelfCount(x) + (if Holds(stage) then 1 else 0)
    && (x.pc.Unborn? <==> stage.Setup? || stage.Wake?)
    && (stage.Setup? ==> x.vforkDone.None?)
    && (x.vforkDone.Some? ==> x.vforkDone == Some(f) && Expects(stage) && fr.completed == 0)
    && (x.pc.Completing? ==> x.pc.f == f && x.vforkDone.None? && fr.completed == 0 && (stage.Waiting? || stage.Killed?))
    && (stage.KillLocked? || stage.KillCleared? <==> x.lock.Some? && x.lock != Some(c))
    && (stage.KillLocked? || stage.KillCleared? ==> x.lock == Some(t))
    && fr.completed <= 1 && fr.done <= fr.completed && (fr.completed == 1 ==> x.released)
    && (stage.Putting? && !stage.killed ==> fr.completed == 1)
    && (stage.Setup? || stage.Wake? ==> fr.completed == 0)
    && (stage.Wake? ==> x.vforkDone == Some(f))
    && (stage.Waiting? ==> x.vforkDone == Some(f) || x.pc.Completing? || fr.done > 0)
  }

  ghost predicate TaskOk(s: State, c: nat)
    requires c in s.tasks
  {
    var x := s.tasks[c];
    Own(c, x) &&
    match x.creator
    case None => Lone(c, x)
    case Some((t, f)) =>
      && t in s.tasks && t != c && f in s.frames && s.frames[f].owner == t && s.frames[f].child == c
      && Pair(c, x, t, f, Stage(s.tasks[t].pc, c, f), s.frames[f])
  }

  ghost predicate CallOk(s: State, t: nat)
    requires t in s.tasks
  {
    var pc := s.tasks[t].pc;
    InClone(pc) ==> pc.c in s.tasks && s.tasks[pc.c].creator == Some((t, pc.f))
  }

  ghost predicate Inv(s: State) {
    && !s.crashed
    && (forall c :: c in s.tasks ==> TaskOk(s, c))
    && (forall t :: t in s.tasks ==> CallOk(s, t))
  }

  // ----- Steps of a task on itself -----

  /** `x'` in place of `x` keeps everything the task and its vfork caller agree on. */
  ghost predicate SelfMove(c: nat, x: Task, x': Task) {
    && x'.creator == x.creator && !InClone(x.pc) && !InClone(x'.pc)
    && (Own(c, x) ==> Own(c, x')) && (Lone(c, x) ==> Lone(c, x'))
    && forall t, f, stage, fr :: t != c && Own(c, x) && Pair(c, x, t, f, stage, fr) ==> Pair(c, x', t, f, stage, fr)
  }

  lemma SelfStep(s: State, t: nat, x': Task)
    requires Inv(s) && t in s.tasks && SelfMove(t, s.tasks[t], x')
    ensures Inv(s.(tasks := s.tasks[t := x']))
  {
    var s' := s.(tasks := s.tasks[t := x']);
    hide Own, Lone, Pair;
    forall c | c in s'.tasks ensures TaskOk(s', c) {
      assert TaskOk(s, c);
    }
  }

  lemma SelfKeeps(s: State, a: Action)
    requires Inv(s) && Enabled(s, a)
    requires a.EnterRelease? || a.TestVforkDone? || a.TaskLock? || a.TakeVforkDone? || a.TaskUnlock?
             || a.ExecDone? || a.ExitDone? || a.DropSelf?
    ensures Inv(Do(s, a))
  {
    var x := s.tasks[a.t];
    var x' := match a
      case EnterRelease(_) => x.(pc := Testing, released := true)
      case TestVforkDone(_) => x.(pc := if x.vforkDone.None? then MmReleased else Locking)
      case TaskLock(_) => x.(pc := Locked, lock := Some(a.t))
      case TakeVforkDone(_) =>
        if x.vforkDone.None? then x.(pc := Unlocking) else x.(pc := Completing(x.vforkDone.value), vforkDone := None)
      case TaskUnlock(_) => x.(pc := MmReleased, lock := None)
      case ExecDone(_) => x.(pc := User)
      case ExitDone(_) => x.(pc := Dead)
      case _ => x.(pc := Gone, usage := x.usage - 1);
    assert Do(s, a) == s.(tasks := s.tasks[a.t := x']);
    SelfMoves(a.t, x, x', a);
    hide Inv, SelfMove, Enabled, Do;
    SelfStep(s, a.t, x');
  }

  lemma SelfMoves(c: nat, x: Task, x': Task, a: Action)
    requires match a
      case EnterRelease(_) => x.pc.User? && x' == x.(pc := Testing, released := true)
      case TestVforkDone(_) => x.pc.Testing? && x' == x.(pc := if x.vforkDone.None? then MmReleased else Locking)
      case TaskLock(_) => x.pc.Locking? && x.lock.None? && x' == x.(pc := Locked, lock := Some(c))
      case TakeVforkDone(_) => x.pc.Locked? && x' ==
        if x.vforkDone.None? then x.(pc := Unlocking) else x.(pc := Completing(x.vforkDone.value), vforkDone := None)
      case TaskUnlock(_) => x.pc.Unlocking? && x' == x.(pc := MmReleased, lock := None)
      case ExecDone(_) => x.pc.MmReleased? && x' == x.(pc := User)
      case ExitDone(_) => x.pc.MmReleased? && x' == x.(pc := Dead)
      case DropSelf(_) => x.pc.Dead? && x' == x.(pc := Gone, usage := x.usage - 1)
      case _ => false
    ensures SelfMove(c, x, x')
  {
  }

  // ----- Steps of a vfork caller -----

  /** The caller moves on to `pc'` in its call, changing the child to `x'` and the frame to `fr'`. */
  ghost function Called(s: State, t: nat, pc': Pc, x': Task, fr': Frame): State
    requires t in s.tasks && InClone(s.tasks[t].pc)
  {
    var c, f := s.tasks[t].pc.c, s.tasks[t].pc.f;
    s.(tasks := s.tasks[c := x'][t := s.tasks[t].(pc := pc')], frames := s.frames[f := fr'])
  }

  lemma CallerMoves(c: nat, x: Task, pc': Pc)
    requires (InClone(x.pc) || x.pc.User?) && (InClone(pc') || pc'.User?)
    ensures Own(c, x) ==> Own(c, x.(pc := pc'))
    ensures Lone(c, x) ==> Lone(c, x.(pc := pc'))
    ensures forall t, f, stage, fr :: Pair(c, x, t, f, stage, fr) ==> Pair(c, x.(pc := pc'), t, f, stage, fr)
  {
  }

  ghost predicate CallMove(s: State, t: nat, pc': Pc, x': Task, fr': Frame) {
    && Inv(s) && t in s.tasks && InClone(s.tasks[t].pc)
    && var c, f := s.tasks[t].pc.c, s.tasks[t].pc.f;
      && c in s.tasks && f in s.frames && c != t && s.tasks[c].creator == Some((t, f)) && s.frames[f].child == c
      && ((InClone(pc') && pc'.c == c && pc'.f == f) || pc'.User?)
      && x'.creator == s.tasks[c].creator && (x'.pc == s.tasks[c].pc || (!InClone(x'.pc) && !InClone(s.tasks[c].pc)))
      && fr'.owner == t && fr'.child == c
      && Own(c, x') && Pair(c, x', t, f, Stage(pc', c, f), fr')
  }

  lemma CallStepOther(s: State, t: nat, pc': Pc, x': Task, fr': Frame, y: nat)
    requires CallMove(s, t, pc', x', fr') && y in s.tasks && y != s.tasks[t].pc.c && y != t
    ensures y in Called(s, t, pc', x', fr').tasks && TaskOk(Called(s, t, pc', x', fr'), y)
  {
    hide Own, Lone, Pair;
    assert TaskOk(s, y);
  }

  lemma CallStepSelf(s: State, t: nat, pc': Pc, x': Task, fr': Frame)
    requires CallMove(s, t, pc', x', fr')
    ensures t in Called(s, t, pc', x', fr').tasks && TaskOk(Called(s, t, pc', x', fr'), t)
  {
    hide Own, Lone, Pair;
    CallerMoves(t, s.tasks[t], pc');
    assert TaskOk(s, t);
  }

  lemma CallStep(s: State, t: nat, pc': Pc, x': Task, fr': Frame)
    requires CallMove(s, t, pc', x', fr')
    ensures Inv(Called(s, t, pc', x', fr'))
  {
    hide Own, Lone, Pair;
    var c := s.tasks[t].pc.c;
    var s' := Called(s, t, pc', x', fr');
    forall y | y in s'.tasks ensures TaskOk(s', y) {
      if y == t {
        CallStepSelf(s, t, pc', x', fr');
      } else if y != c {
        CallStepOther(s, t, pc', x', fr', y);
      }
    }
    forall y | y in s'.tasks ensures CallOk(s', y) {
      assert CallOk(s, y);
    }
  }

  predicate IsCallStep(a: Action) {
    || a.SetVforkDone? || a.WakeUp? || a.WaitReturns? || a.WaitKilled? || a.KillLock? || a.KillClear? || a.KillUnlock?
    || a.PutChild? || a.LeaveClone?
  }

  /** Where the caller's step leaves itself, the child and the frame. */
  function After(a: Action, t: nat, pc: Pc, x: Task, fr: Frame): (Pc, Task, Frame)
    requires InClone(pc) && (a.WaitReturns? ==> fr.done > 0) && (a.PutChild? ==> pc.Putting?)
  {
    var c, f := pc.c, pc.f;
    match a
    case SetVforkDone(_) => (Wake(c, f), x.(vforkDone := Some(f), usage := x.usage + 1), fr)
    case WakeUp(_) => (Waiting(c, f), x.(pc := User), fr)
    case WaitReturns(_) => (Putting(c, f, false), x, fr.(done := fr.done - 1))
    case WaitKilled(_) => (Killed(c, f), x, fr)
    case KillLock(_) => (KillLocked(c, f), x.(lock := Some(t)), fr)
    case KillClear(_) => (KillCleared(c, f), x.(vforkDone := None), fr)
    case KillUnlock(_) => (Putting(c, f, true), x.(lock := None), fr)
    case PutChild(_) => (Leaving(c, f, pc.killed), x.(usage := x.usage - 1), fr)
    case _ => (User, x, fr)
  }

  predicate Ready(a: Action, pc: Pc, x: Task, fr: Frame) {
    match a
    case SetVforkDone(_) => pc.Setup?
    case WakeUp(_) => pc.Wake?
    case WaitReturns(_) => pc.Waiting? && fr.done > 0
    case WaitKilled(_) => pc.Waiting?
    case KillLock(_) => pc.Killed? && x.lock.None?
    case KillClear(_) => pc.KillLocked?
    case KillUnlock(_) => pc.KillCleared?
    case PutChild(_) => pc.Putting?
    case LeaveClone(_) => pc.Leaving?
    case _ => false
  }

  lemma CallPair(a: Action, c: nat, x: Task, t: nat, f: nat, pc: Pc, fr: Frame)
    requires InClone(pc) && pc.c == c && pc.f == f && c != t && IsCallStep(a) && Ready(a, pc, x, fr)
    requires Own(c, x) && Pair(c, x, t, f, pc, fr)
    ensures var (pc', x', fr') := After(a, t, pc, x, fr);
      && Own(c, x') && Pair(c, x', t, f, Stage(pc', c, f), fr') && x'.creator == x.creator
      && (x'.pc == x.pc || (!InClone(x'.pc) && !InClone(x.pc)))
      && ((InClone(pc') && pc'.c == c && pc'.f == f) || pc'.User?)
      && fr'.owner == fr.owner && fr'.child == fr.child
    ensures pc.Leaving? || x.usage > 0
  {
  }

  lemma CallIs(s: State, a: Action)
    requires Inv(s) && Enabled(s, a) && IsCallStep(a)
    ensures var t := a.t; var pc := s.tasks[t].pc;
      && InClone(pc) && pc.c in s.tasks && pc.f in s.frames && pc.c != t
      && s.tasks[pc.c].creator == Some((t, pc.f)) && s.frames[pc.f].child == pc.c && s.frames[pc.f].owner == t
      && Own(pc.c, s.tasks[pc.c]) && Pair(pc.c, s.tasks[pc.c], t, pc.f, pc, s.frames[pc.f])
      && Ready(a, pc, s.tasks[pc.c], s.frames[pc.f])
  {
    hide Own, Lone, Pair, Do;
    assert CallOk(s, a.t) && TaskOk(s, s.tasks[a.t].pc.c);
    var x := s.tasks[s.tasks[a.t].pc.c];
    PairLive(s.tasks[a.t].pc.c, x, a.t, s.tasks[a.t].pc.f, s.tasks[a.t].pc, s.frames[s.tasks[a.t].pc.f]);
  }

  lemma PairLive(c: nat, x: Task, t: nat, f: nat, stage: Pc, fr: Frame)
    requires Pair(c, x, t, f, stage, fr) && InClone(stage)
    ensures stage.Leaving? || x.usage > 0
  {
  }

  lemma CallKeeps(s: State, a: Action)
    requires Inv(s) && Enabled(s, a) && IsCallStep(a)
    ensures Inv(Do(s, a))
  {
    CallIs(s, a);
    var t, pc := a.t, s.tasks[a.t].pc;
    var x, fr := s.tasks[pc.c], s.frames[pc.f];
    CallPair(a, pc.c, x, t, pc.f, pc, fr);
    var (pc', x', fr') := After(a, t, pc, x, fr);
    CallDoes(s, a, pc', x', fr');
    hide Do, Enabled, After, Own, Pair;
    assert CallMove(s, t, pc', x', fr');
    hide Inv;
    CallStep(s, t, pc', x', fr');
  }

  lemma CallDoes(s: State, a: Action, pc': Pc, x': Task, fr': Frame)
    requires Enabled(s, a) && IsCallStep(a) && InClone(s.tasks[a.t].pc)
    requires var pc := s.tasks[a.t].pc;
      && pc.c in s.tasks && pc.f in s.frames && pc.c != a.t && (pc.Leaving? || s.tasks[pc.c].usage > 0)
      && Ready(a, pc, s.tasks[pc.c], s.frames[pc.f])
      && (pc', x', fr') == After(a, a.t, pc, s.tasks[pc.c], s.frames[pc.f])
    ensures Do(s, a) == Called(s, a.t, pc', x', fr')
  {
    var c, f := s.tasks[a.t].pc.c, s.tasks[a.t].pc.f;
    assert s.frames[f := s.frames[f]] == s.frames;
    assert s.tasks[c := s.tasks[c]] == s.tasks;
  }

  // ----- The completion and the creation of tasks -----

  lemma CompleteKeeps(s: State, a: Action)
    requires Inv(s) && Enabled(s, a) && a.Complete?
    ensures Inv(Do(s, a))
    ensures LiveFrame(s, s.tasks[a.t].pc.f) && s.frames[s.tasks[a.t].pc.f].completed == 0
  {
    var t, f := a.t, s.tasks[a.t].pc.f;
    assert TaskOk(s, t);
    var s' := Do(s, a);
    forall y | y in s'.tasks ensures TaskOk(s', y) {
      assert TaskOk(s, y);
    }
    forall y | y in s'.tasks ensures CallOk(s', y) {
      assert CallOk(s, y);
    }
  }

  lemma ForkKeeps(s: State, a: Action)
    requires Inv(s) && Enabled(s, a) && a.Fork?
    ensures Inv(Do(s, a))
  {
    var s' := Do(s, a);
    forall y | y in s'.tasks ensures TaskOk(s', y) {
      hide Pair;
      if y in s.tasks { assert TaskOk(s, y); }
    }
    forall y | y in s'.tasks ensures CallOk(s', y) {
      if y in s.tasks { assert CallOk(s, y); }
    }
  }

  lemma NewPair(c: nat, t: nat, f: nat)
    ensures var x := Task(Unborn, None, None, 1, false, Some((t, f)));
      Own(c, x) && Pair(c, x, t, f, Setup(c, f), Frame(t, c, 0, 0))
  {
  }

  lemma VforkKeeps(s: State, a: Action)
    requires Inv(s) && Enabled(s, a) && a.CopyVfork?
    ensures Inv(Do(s, a))
  {
    hide Own, Lone, Pair;
    var s' := Do(s, a);
    assert s'.tasks[a.c] == Task(Unborn, None, None, 1, false, Some((a.t, a.f)));
    assert s'.tasks[a.t] == s.tasks[a.t].(pc := Setup(a.c, a.f));
    assert s'.frames[a.f] == Frame(a.t, a.c, 0, 0);
    NewPair(a.c, a.t, a.f);
    CallerMoves(a.t, s.tasks[a.t], Setup(a.c, a.f));
    forall y | y in s'.tasks ensures TaskOk(s', y) {
      if y in s.tasks { assert TaskOk(s, y); }
    }
    forall y | y in s'.tasks ensures CallOk(s', y) {
      if y in s.tasks { assert CallOk(s, y); }
    }
  }

  lemma StepKeeps(s: State, a: Action)
    requires Inv(s) && Enabled(s, a)
    ensures Inv(Do(s, a))
  {
    hide Inv, Do, Enabled;
    if IsCallStep(a) { CallKeeps(s, a); }
    else if a.Complete? { CompleteKeeps(s, a); }
    else if a.Fork? { ForkKeeps(s, a); }
    else if a.CopyVfork? { VforkKeeps(s, a); }
    else { SelfKeeps(s, a); }
  }

  // ----- Every run -----

  lemma {:induction false} RunKeeps(acts: seq<Action>)
    requires Exec(acts).Some?
    ensures Inv(Exec(acts).value)
  {
    if acts != [] {
      RunKeeps(acts[..|acts| - 1]);
      StepKeeps(Exec(acts[..|acts| - 1]).value, acts[|acts| - 1]);
    }
  }

  /**
   * In every interleaving: no stack frame that is gone and no freed task_struct is ever touched;
   * every pointer to a completion, in a task or in a running complete_vfork_done, leads to a
   * frame that is still on its owner's stack; complete() has run on each frame at most once; and
   * a caller that refers to its child keeps the child's task_struct alive.
   */
  lemma VforkSafe(acts: seq<Action>, t: nat)
    requires Exec(acts).Some? && t in Exec(acts).value.tasks
    ensures var s := Exec(acts).value; var x := s.tasks[t];
      && !s.crashed
      && (x.vforkDone.Some? ==> LiveFrame(s, x.vforkDone.value) && s.frames[x.vforkDone.value].completed == 0)
      && (x.pc.Completing? ==> LiveFrame(s, x.pc.f) && s.frames[x.pc.f].completed == 0)
      && (Holds(x.pc) ==> !Freed(s, x.pc.c) && x.pc.f in s.frames && s.frames[x.pc.f].completed <= 1)
  {
    RunKeeps(acts);
    var s := Exec(acts).value;
    assert TaskOk(s, t) && CallOk(s, t);
    if InClone(s.tasks[t].pc) { assert TaskOk(s, s.tasks[t].pc.c); }
  }

  /** A wait that was not killed returns only after the child has given the address space back. */
  lemma UnkilledWaitMeansReleased(acts: seq<Action>, t: nat)
    requires var r := Exec(acts); r.Some? && t in r.value.tasks && r.value.tasks[t].pc.Putting?
    requires !Exec(acts).value.tasks[t].pc.killed
    ensures var s := Exec(acts).value;
      s.tasks[t].pc.c in s.tasks && s.tasks[s.tasks[t].pc.c].released
  {
    RunKeeps(acts);
    var s := Exec(acts).value;
    assert CallOk(s, t) && TaskOk(s, s.tasks[t].pc.c);
  }

  /** Once the caller has left its frame, killed or not, nothing refers to that frame any more. */
  lemma NothingRefersToADeadFrame(acts: seq<Action>, f: nat, x: nat)
    requires var r := Exec(acts); r.Some? && x in r.value.tasks && !LiveFrame(r.value, f)
    ensures var y := Exec(acts).value.tasks[x]; y.vforkDone != Some(f) && y.pc != Completing(f)
  {
    VforkSafe(acts, x);
  }

  // ----- The caller is woken -----

  /** The task has been through mm_release and complete_vfork_done. */
  predicate LeftRelease(x: Task) {
    x.released && !x.pc.Testing? && !x.pc.Locking? && !HoldsOwnLock(x.pc)
  }

  /** Once the child of a waiting caller has given the address space back, the wait can return. */
  lemma ReleaseWakesCaller(acts: seq<Action>, t: nat)
    requires var r := Exec(acts); r.Some? && t in r.value.tasks && r.value.tasks[t].pc.Waiting?
    ensures var s := Exec(acts).value; var pc := s.tasks[t].pc;
      && pc.c in s.tasks && pc.f in s.frames
      && (var x := s.tasks[pc.c]; x.pc.MmReleased? || x.pc.Dead? || x.pc.Gone? ==> LeftRelease(x))
      && (LeftRelease(s.tasks[pc.c]) ==> s.frames[pc.f].done > 0 && Enabled(s, WaitReturns(t)))
  {
    RunKeeps(acts);
    var s := Exec(acts).value;
    assert CallOk(s, t) && TaskOk(s, s.tasks[t].pc.c);
  }

  lemma Then(acts: seq<Action>, a: Action) returns (acts': seq<Action>)
    requires Exec(acts).Some? && Enabled(Exec(acts).value, a)
    ensures acts' == acts + [a] && Exec(acts') == Some(Do(Exec(acts).value, a)) && !Exec(acts').value.crashed
  {
    hide Do, Enabled;
    acts' := acts + [a];
    assert acts'[..|acts'| - 1] == acts;
    RunKeeps(acts');
  }

  /** How far a task is from having been through mm_release. */
  function ToGo(pc: Pc): nat {
    match pc
    case Unlocking => 1
    case Completing(_) => 2
    case Locked => 3
    case Locking => 4
    case Testing => 5
    case _ => 6
  }

  /** The next step of a task on its way through mm_release. */
  function NextStep(c: nat, pc: Pc): Action {
    match pc
    case Unlocking => TaskUnlock(c)
    case Completing(_) => Complete(c)
    case Locked => TakeVforkDone(c)
    case Locking => TaskLock(c)
    case Testing => TestVforkDone(c)
    case _ => EnterRelease(c)
  }

  /** What a waiting caller's child has, where it stands in mm_release. */
  lemma OnTheWay(s: State, t: nat)
    requires Inv(s) && t in s.tasks && s.tasks[t].pc.Waiting?
    ensures var c := s.tasks[t].pc.c;
      && c in s.tasks && c != t && !s.tasks[c].pc.Unborn?
      && var x := s.tasks[c];
         && (x.pc.Completing? ==> x.pc.f in s.frames) && (x.pc.Locking? ==> x.lock.None?)
         && (!LeftRelease(x) && !InClone(x.pc) ==>
               x.pc.User? || x.pc.Testing? || x.pc.Locking? || x.pc.Locked? || x.pc.Completing? || x.pc.Unlocking?)
         && (x.released && x.pc.User? ==> LeftRelease(x)) && (x.pc.Testing? || x.pc.Unlocking? ==> x.released)
  {
    assert CallOk(s, t) && TaskOk(s, s.tasks[t].pc.c);
  }

  lemma StepsOn(s: State, t: nat)
    requires Inv(s) && t in s.tasks && s.tasks[t].pc.Waiting? && s.tasks[t].pc.c in s.tasks
    requires var x := s.tasks[s.tasks[t].pc.c]; !InClone(x.pc) && !LeftRelease(x)
    ensures var pc := s.tasks[t].pc; var a := NextStep(pc.c, s.tasks[pc.c].pc);
      && Enabled(s, a)
      && (!Do(s, a).crashed ==>
            && t in Do(s, a).tasks && Do(s, a).tasks[t].pc == pc && pc.c in Do(s, a).tasks
            && var x := Do(s, a).tasks[pc.c]; !InClone(x.pc) && (LeftRelease(x) || ToGo(x.pc) < ToGo(s.tasks[pc.c].pc)))
  {
    hide Inv;
    OnTheWay(s, t);
  }

  // A child that is in a clone of its own can always be killed out of it.

  /** The next step of a task in a clone; a task that holds its own lock is first let out of mm_release. */
  function CloneStep(c: nat, pc: Pc, child: Task): Action
    requires InClone(pc)
  {
    match pc
    case Setup(_, _) => SetVforkDone(c)
    case Wake(_, _) => WakeUp(c)
    case Waiting(_, _) => WaitKilled(c)
    case Killed(c2, _) => if HoldsOwnLock(child.pc) then NextStep(c2, child.pc) else KillLock(c)
    case KillLocked(_, _) => KillClear(c)
    case KillCleared(_, _) => KillUnlock(c)
    case Putting(_, _, _) => PutChild(c)
    case Leaving(_, _, _) => LeaveClone(c)
  }

  function StagesToGo(pc: Pc): nat {
    match pc
    case Setup(_, _) => 8
    case Wake(_, _) => 7
    case Waiting(_, _) => 6
    case Killed(_, _) => 5
    case KillLocked(_, _) => 4
    case KillCleared(_, _) => 3
    case Putting(_, _, _) => 2
    case Leaving(_, _, _) => 1
    case _ => 0
  }

  /** How far the child of a waiting caller is from having been through mm_release. */
  function Distance(s: State, c: nat): nat
    requires c in s.tasks
  {
    var pc := s.tasks[c].pc;
    if LeftRelease(s.tasks[c]) then 0
    else if !InClone(pc) then ToGo(pc)
    else
      var held := if pc.c in s.tasks && HoldsOwnLock(s.tasks[pc.c].pc) then ToGo(s.tasks[pc.c].pc) else 0;
      7 + 4 * StagesToGo(pc) + held
  }

  /** What a task in a clone, which may itself be waited for by t, knows about its own child. */
  lemma InsideClone(s: State, t: nat, c: nat)
    requires Inv(s) && t in s.tasks && s.tasks[t].pc.Waiting? && s.tasks[t].pc.c == c && c in s.tasks
    requires InClone(s.tasks[c].pc)
    ensures var pc := s.tasks[c].pc;
      && c != t && pc.c in s.tasks && pc.c != c && pc.f in s.frames
      && var y := s.tasks[pc.c];
         && (pc.Wake? ==> pc.c != t && y.pc.Unborn?) && (pc.Setup? ==> y.pc.Unborn?)
         && (pc.Killed? && !HoldsOwnLock(y.pc) ==> y.lock.None?)
         && (y.pc.Completing? ==> y.pc.f in s.frames) && (pc.Leaving? || y.usage > 0)
         && (pc.Killed? && HoldsOwnLock(y.pc) ==> pc.c != t)
  {
    assert CallOk(s, t) && TaskOk(s, c);
    assert CallOk(s, c) && TaskOk(s, s.tasks[c].pc.c);
  }

  function StepIn(s: State, c: nat): Action
    requires c in s.tasks && InClone(s.tasks[c].pc) && s.tasks[c].pc.c in s.tasks
  {
    CloneStep(c, s.tasks[c].pc, s.tasks[s.tasks[c].pc.c])
  }

  predicate ComesCloser(s: State, s': State, t: nat, c: nat)
    requires t in s.tasks && c in s.tasks
  {
    t in s'.tasks && s'.tasks[t].pc == s.tasks[t].pc && c in s'.tasks && Distance(s', c) < Distance(s, c)
  }

  lemma UnlocksOn(s: State, t: nat, c: nat)
    requires Inv(s) && t in s.tasks && s.tasks[t].pc.Waiting? && s.tasks[t].pc.c == c && c in s.tasks
    requires InClone(s.tasks[c].pc) && !LeftRelease(s.tasks[c]) && s.tasks[c].pc.c in s.tasks
    requires s.tasks[c].pc.Killed? && HoldsOwnLock(s.tasks[s.tasks[c].pc.c].pc)
    ensures Enabled(s, StepIn(s, c)) && (!Do(s, StepIn(s, c)).crashed ==> ComesCloser(s, Do(s, StepIn(s, c)), t, c))
  {
    hide Inv;
    InsideClone(s, t, c);
  }

  lemma CallsOn(s: State, t: nat, c: nat)
    requires Inv(s) && t in s.tasks && s.tasks[t].pc.Waiting? && s.tasks[t].pc.c == c && c in s.tasks
    requires InClone(s.tasks[c].pc) && !LeftRelease(s.tasks[c]) && s.tasks[c].pc.c in s.tasks
    requires !(s.tasks[c].pc.Killed? && HoldsOwnLock(s.tasks[s.tasks[c].pc.c].pc))
    ensures Enabled(s, StepIn(s, c)) && (!Do(s, StepIn(s, c)).crashed ==> ComesCloser(s, Do(s, StepIn(s, c)), t, c))
  {
    hide Inv;
    InsideClone(s, t, c);
  }

  lemma ClonesOn(s: State, t: nat, c: nat)
    requires Inv(s) && t in s.tasks && s.tasks[t].pc.Waiting? && s.tasks[t].pc.c == c && c in s.tasks
    requires InClone(s.tasks[c].pc) && !LeftRelease(s.tasks[c]) && s.tasks[c].pc.c in s.tasks
    ensures Enabled(s, StepIn(s, c)) && (!Do(s, StepIn(s, c)).crashed ==> ComesCloser(s, Do(s, StepIn(s, c)), t, c))
  {
    hide Inv, Do, Enabled, Distance;
    if s.tasks[c].pc.Killed? && HoldsOwnLock(s.tasks[s.tasks[c].pc.c].pc) {
      UnlocksOn(s, t, c);
    } else {
      CallsOn(s, t, c);
    }
  }

  lemma StepTowards(s: State, t: nat) returns (a: Action)
    requires Inv(s) && t in s.tasks && s.tasks[t].pc.Waiting? && s.tasks[t].pc.c in s.tasks
    requires !LeftRelease(s.tasks[s.tasks[t].pc.c])
    ensures Enabled(s, a) && (!Do(s, a).crashed ==> ComesCloser(s, Do(s, a), t, s.tasks[t].pc.c))
  {
    hide Inv, Do, Enabled;
    var c := s.tasks[t].pc.c;
    if InClone(s.tasks[c].pc) {
      InsideClone(s, t, c);
      ClonesOn(s, t, c);
      a := StepIn(s, c);
    } else {
      StepsOn(s, t);
      a := NextStep(c, s.tasks[c].pc);
    }
  }

  /**
   * In every reachable state nobody waits in vain: the child of a waiting caller can go through
   * mm_release, wherever it is, and then the wait returns without a kill.
   */
  lemma {:induction false} WaitCanReturn(acts: seq<Action>, t: nat) returns (acts': seq<Action>)
    requires var r := Exec(acts); r.Some? && t in r.value.tasks && r.value.tasks[t].pc.Waiting?
    ensures acts < acts' && Exec(acts').Some? && t in Exec(acts').value.tasks
    ensures var pc := Exec(acts).value.tasks[t].pc; Exec(acts').value.tasks[t].pc == Putting(pc.c, pc.f, false)
    decreases var s := Exec(acts).value; if s.tasks[t].pc.c in s.tasks then Distance(s, s.tasks[t].pc.c) else 0
  {
    hide Inv, Exec;
    RunKeeps(acts);
    ReleaseWakesCaller(acts, t);
    var s := Exec(acts).value;
    var c := s.tasks[t].pc.c;
    if LeftRelease(s.tasks[c]) {
      acts' := Then(acts, WaitReturns(t));
    } else {
      var a := StepTowards(s, t);
      hide Do, Enabled, Distance;
      acts' := Then(acts, a);
      acts' := WaitCanReturn(acts', t);
    }
  }

  /** A vfork from beginning to end. */
  lemma VforkReturns() returns (acts: seq<Action>)
    ensures Exec(acts).Some? && 0 in Exec(acts).value.tasks && Exec(acts).value.tasks[0].pc == Putting(1, 0, false)
  {
    acts := [];
    assert Exec(acts) == Some(Init());
    acts := Then(acts, CopyVfork(0, 1, 0));
    acts := Then(acts, SetVforkDone(0));
    acts := Then(acts, WakeUp(0));
    acts := WaitCanReturn(acts, 0);
  }
}
