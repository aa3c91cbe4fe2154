/**
 * The per-thread socket limit: a check when a socket is created, an increment when the creation
 * succeeds, a decrement of whoever releases a socket that has a file, and a limit that anybody may
 * change in between.  Each lock section and each atomic operation is one step.
 */
module SocketFair {
  import opened Lists
  import opened Holders

  const DEFAULT_MAX: int := 1024
  const LARGEST_MAX: int := 65536

  /** `Creating` is a task inside __sock_create, with the limit its check read. */
  datatype Pc = Idle | Creating(seen: int)

  datatype Task = Task(pc: Pc, count: int, max: int)

  /**
   * `file` has the open sockets and says which have got a file.  `counted` has those that a task was
   * counted for and that task; a socket made by accept was counted for nobody.
   */
  datatype State = State(tasks: map<nat, Task>, file: map<nat, bool>, counted: map<nat, nat>)

  datatype Action =
    | Spawn(t: nat)
    | Check(t: nat)
    | CreateFails(t: nat)
    | Create(t: nat, s: nat)
    | Accept(t: nat, s: nat)
    | GetFile(s: nat)
    | Release(t: nat, s: nat)
    | Configure(pid: nat, max: int)

  predicate IsIdle(st: State, t: nat) {
    t in st.tasks && st.tasks[t].pc.Idle?
  }

  predicate IsCreating(st: State, t: nat) {
    t in st.tasks && st.tasks[t].pc.Creating?
  }

  predicate Enabled(st: State, a: Action) {
    match a
    case Spawn(t) => t !in st.tasks
    case Check(t) => IsIdle(st, t)
    case CreateFails(t) => IsCreating(st, t)
    case Create(t, s) => IsCreating(st, t) && s !in st.file
    case Accept(t, s) => IsIdle(st, t) && s !in st.file
    case GetFile(s) => s in st.file
    case Release(t, s) => IsIdle(st, t) && s in st.file
    case Configure(_, _) => true
  }

  function Do(st: State, a: Action): State
    requires Enabled(st, a)
  {
    match a
    case Spawn(t) => st.(tasks := st.tasks[t := Task(Idle, 0, DEFAULT_MAX)])
    case Check(t) =>
      var task := st.tasks[t];
      if task.count >= task.max then st else st.(tasks := st.tasks[t := task.(pc := Creating(task.max))])
    case CreateFails(t) => st.(tasks := st.tasks[t := st.tasks[t].(pc := Idle)])
    case Create(t, s) =>
      var task := st.tasks[t].(pc := Idle, count := st.tasks[t].count + 1);
      State(st.tasks[t := task], st.file[s := false], st.counted[s := t])
    case Accept(_, s) => st.(file := st.file[s := false])
    case GetFile(s) => st.(file := st.file[s := true])
    case Release(t, s) =>
      var count := st.tasks[t].count - if st.file[s] then 1 else 0;
      State(st.tasks[t := st.tasks[t].(count := count)], st.file - {s}, st.counted - {s})
    case Configure(pid, max) =>
      if max < 0 || max > LARGEST_MAX || pid !in st.tasks then st
      else st.(tasks := st.tasks[pid := st.tasks[pid].(max := max)])
  }

  const INIT: State := State(map[], map[], map[])

  /** The state after a run, or None when some action was not enabled. */
  function Exec(acts: seq<Action>): Option<State> {
    if acts == [] then Some(INIT)
    else
      var r := Exec(acts[..|acts| - 1]);
      var a := acts[|acts| - 1];
      if r.Some? && Enabled(r.value, a) then Some(Do(r.value, a)) else None
  }

  // ----- What the counter counts -----

  /** The action counts a creation for t. */
  predicate Counts(a: Action, t: nat) {
    a.Create? && a.t == t
  }

  /** The action is a release by t that is counted. */
  predicate Uncounts(st: State, a: Action, t: nat) {
    a.Release? && a.t == t && a.s in st.file && st.file[a.s]
  }

  /** A counted release by t of a socket that was not counted for t. */
  predicate TakesForeign(st: State, a: Action, t: nat) {
    Uncounts(st, a, t) && !(a.s in st.counted && st.counted[a.s] == t)
  }

  /** A socket counted for t goes without t's counter going down: another task releases it, or it has no file. */
  predicate LosesOwn(st: State, a: Action, t: nat) {
    a.Release? && a.s in st.counted && st.counted[a.s] == t && !Uncounts(st, a, t)
  }

  datatype Tally = Tally(created: nat, released: nat, foreign: nat, lost: nat)

  /** How often each of these happened to t in a run. */
  function TallyOf(acts: seq<Action>, t: nat): Tally {
    if acts == [] then Tally(0, 0, 0, 0)
    else
      var pre, a := acts[..|acts| - 1], acts[|acts| - 1];
      var n := TallyOf(pre, t);
      if Exec(pre).None? then n
      else
        var st := Exec(pre).value;
        Tally(n.created + (if Counts(a, t) then 1 else 0), n.released + (if Uncounts(st, a, t) then 1 else 0),
              n.foreign + (if TakesForeign(st, a, t) then 1 else 0), n.lost + (if LosesOwn(st, a, t) then 1 else 0))
  }

  predicate Known(st: State) {
    forall s :: s in st.counted ==> s in st.file && st.counted[s] in st.tasks
  }

  lemma {:induction false} OnlyOpenIsCounted(acts: seq<Action>)
    requires Exec(acts).Some?
    ensures Known(Exec(acts).value)
  {
    if acts != [] {
      OnlyOpenIsCounted(acts[..|acts| - 1]);
    }
  }

  /** Before a task exists it does nothing. */
  lemma {:induction false} NothingBefore(acts: seq<Action>, t: nat)
    requires Exec(acts).Some? && t !in Exec(acts).value.tasks
    ensures TallyOf(acts, t) == Tally(0, 0, 0, 0)
  {
    if acts != [] {
      NothingBefore(acts[..|acts| - 1], t);
      OnlyOpenIsCounted(acts[..|acts| - 1]);
    }
  }

  /** A task's counter is its own counted creations minus its own counted releases. */
  lemma {:induction false} CounterIsOwn(acts: seq<Action>, t: nat)
    requires Exec(acts).Some? && t in Exec(acts).value.tasks
    ensures Exec(acts).value.tasks[t].count == TallyOf(acts, t).created - TallyOf(acts, t).released
  {
    var pre := acts[..|acts| - 1];
    if t in Exec(pre).value.tasks {
      CounterIsOwn(pre, t);
    } else {
      NothingBefore(pre, t);
    }
  }

  /** How one step changes the number of open sockets counted for t. */
  lemma OpenStep(st: State, a: Action, t: nat)
    requires Known(st) && Enabled(st, a)
    ensures Cnt(Do(st, a).counted, t) == Cnt(st.counted, t) + (if Counts(a, t) then 1 else 0)
      - (if a.Release? && a.s in st.counted && st.counted[a.s] == t then 1 else 0)
  {
    hide Cnt;
    if a.Create? { CntAdd(st.counted, a.s, a.t, t); }
    if a.Release? { CntDel(st.counted, a.s, t); }
  }

  /**
   * Over every run: a task's counter is the number of open sockets counted for it, plus those that
   * went without it going down, minus the sockets of others that it released.
   */
  lemma {:induction false} Balance(acts: seq<Action>, t: nat)
    requires Exec(acts).Some? && t in Exec(acts).value.tasks
    ensures var st := Exec(acts).value;
            st.tasks[t].count == Cnt(st.counted, t) + TallyOf(acts, t).lost - TallyOf(acts, t).foreign
  {
    hide Cnt;
    var pre, a := acts[..|acts| - 1], acts[|acts| - 1];
    var st := Exec(pre).value;
    OnlyOpenIsCounted(pre);
    OpenStep(st, a, t);
    if t in st.tasks {
      Balance(pre, t);
    } else {
      NothingBefore(pre, t);
      CntUnheld(st.counted, t);
    }
  }

  /** Exactly when the counter is not negative, and exactly when it is the number of open sockets counted for t. */
  lemma NonNegativeIff(acts: seq<Action>, t: nat)
    requires Exec(acts).Some? && t in Exec(acts).value.tasks
    ensures var st, n := Exec(acts).value, TallyOf(acts, t);
            && (st.tasks[t].count >= 0 <==> n.foreign <= Cnt(st.counted, t) + n.lost)
            && (st.tasks[t].count == Cnt(st.counted, t) <==> n.foreign == n.lost)
  {
    Balance(acts, t);
  }

  /** A task that only ever releases sockets it was counted for never has a negative counter. */
  lemma OwnReleasesOnly(acts: seq<Action>, t: nat)
    requires Exec(acts).Some? && t in Exec(acts).value.tasks && TallyOf(acts, t).foreign == 0
    ensures Exec(acts).value.tasks[t].count >= Cnt(Exec(acts).value.counted, t)
  {
    Balance(acts, t);
  }

  lemma Then(acts: seq<Action>, a: Action) returns (acts': seq<Action>, st': State)
    requires Exec(acts).Some? && Enabled(Exec(acts).value, a)
    ensures acts' == acts + [a] && st' == Do(Exec(acts).value, a) && Exec(acts') == Some(st')
  {
    acts' := acts + [a];
    assert acts'[..|acts'| - 1] == acts;
    st' := Do(Exec(acts).value, a);
  }

  /** A task that accepts a connection and closes it has a counter of -1. */
  lemma BelowZero() returns (acts: seq<Action>, st: State)
    ensures acts == [Spawn(0), Accept(0, 7), GetFile(7), Release(0, 7)]
    ensures Exec(acts) == Some(st) && 0 in st.tasks && st.tasks[0].count == -1
  {
    acts, st := Then([], Spawn(0));
    acts, st := Then(acts, Accept(0, 7));
    acts, st := Then(acts, GetFile(7));
    acts, st := Then(acts, Release(0, 7));
  }

  /** A socket that is given up before it gets a file stays counted for good. */
  lemma CountedForGood() returns (acts: seq<Action>, st: State)
    ensures acts == [Spawn(0), Check(0), Create(0, 7), Release(0, 7)]
    ensures Exec(acts) == Some(st) && st.file == map[] && 0 in st.tasks && st.tasks[0].count == 1
  {
    acts, st := Then([], Spawn(0));
    acts, st := Then(acts, Check(0));
    acts, st := Then(acts, Create(0, 7));
    acts, st := Then(acts, Release(0, 7));
  }

  // ----- The limit -----

  /** The limit is a legal one, and a task that passed the check still has room under the limit it saw. */
  predicate HasRoom(task: Task) {
    && 0 <= task.max <= LARGEST_MAX && task.count <= LARGEST_MAX
    && (task.pc.Creating? ==> task.count < task.pc.seen <= LARGEST_MAX)
  }

  lemma RoomStep(st: State, a: Action, t: nat)
    requires Enabled(st, a) && (t in st.tasks ==> HasRoom(st.tasks[t])) && t in Do(st, a).tasks
    ensures HasRoom(Do(st, a).tasks[t])
  {
  }

  lemma {:induction false} RoomWhenChecked(acts: seq<Action>, t: nat)
    requires Exec(acts).Some? && t in Exec(acts).value.tasks
    ensures HasRoom(Exec(acts).value.tasks[t])
  {
    hide Do, Enabled, HasRoom;
    var pre := acts[..|acts| - 1];
    if t in Exec(pre).value.tasks {
      RoomWhenChecked(pre, t);
    }
    RoomStep(Exec(pre).value, acts[|acts| - 1], t);
  }

  predicate Sets(a: Action, t: nat) {
    a == Spawn(t) || (a.Configure? && a.pid == t && 0 <= a.max <= LARGEST_MAX)
  }

  /** A task's limit is the last legal one that it was configured to have since it exists, or the default. */
  lemma {:induction false} LimitIsTheLastSet(acts: seq<Action>, t: nat) returns (j: nat)
    requires Exec(acts).Some? && t in Exec(acts).value.tasks
    ensures j < |acts| && Sets(acts[j], t) && forall k :: j < k < |acts| ==> !Sets(acts[k], t)
    ensures Exec(acts).value.tasks[t].max == if acts[j].Spawn? then DEFAULT_MAX else acts[j].max
  {
    var pre, a := acts[..|acts| - 1], acts[|acts| - 1];
    if Sets(a, t) {
      j := |acts| - 1;
      if a.Configure? { Configured(pre, a); }
    } else {
      j := LimitIsTheLastSet(pre, t);
    }
  }

  lemma Configured(acts: seq<Action>, a: Action)
    requires Exec(acts).Some? && a.Configure? && Sets(a, a.pid) && a.pid in Do(Exec(acts).value, a).tasks
    ensures Do(Exec(acts).value, a).tasks[a.pid].max == a.max
  {
  }

  /** An idle task passes the check exactly when its counter is below the limit that was last set. */
  lemma PassesIffBelow(acts: seq<Action>, t: nat) returns (j: nat)
    requires Exec(acts).Some? && IsIdle(Exec(acts).value, t)
    ensures j < |acts| && Sets(acts[j], t) && forall k :: j < k < |acts| ==> !Sets(acts[k], t)
    ensures Exec(acts + [Check(t)]).Some?
    ensures IsCreating(Exec(acts + [Check(t)]).value, t) <==>
      Exec(acts).value.tasks[t].count < if acts[j].Spawn? then DEFAULT_MAX else acts[j].max
  {
    j := LimitIsTheLastSet(acts, t);
    var acts', st' := Then(acts, Check(t));
  }

  /** The check that t passed, and the last change of its limit since, if there was one. */
  lemma {:induction false} SinceCheck(acts: seq<Action>, t: nat) returns (i: nat, j: nat)
    requires Exec(acts).Some? && IsCreating(Exec(acts).value, t)
    ensures i < |acts| && acts[i] == Check(t)
    ensures i <= j < |acts|
    ensures forall k :: i < k < |acts| ==> acts[k] != Check(t)
    ensures var task := Exec(acts).value.tasks[t];
            if i == j then task.max == task.pc.seen else acts[j] == Configure(t, task.max)
  {
    var pre, a := acts[..|acts| - 1], acts[|acts| - 1];
    var was := Exec(pre).value.tasks;
    assert t in was;
    if was[t].pc.Creating? {
      i, j := SinceCheck(pre, t);
      if Exec(acts).value.tasks[t].max != was[t].max {
        j := |acts| - 1;
      }
    } else {
      i, j := |acts| - 1, |acts| - 1;
    }
  }

  /** An increment takes the counter above the limit only if a configure lowered the limit after the check. */
  lemma AboveLimitOnlyByConfigure(acts: seq<Action>, t: nat, s: nat) returns (i: nat, j: nat)
    requires Exec(acts).Some? && Enabled(Exec(acts).value, Create(t, s))
    requires var task := Do(Exec(acts).value, Create(t, s)).tasks[t]; task.count > task.max
    ensures i < j < |acts| && acts[i] == Check(t) && (forall k :: i < k < |acts| ==> acts[k] != Check(t))
    ensures var task := Exec(acts).value.tasks[t]; acts[j] == Configure(t, task.max) && task.max < task.pc.seen
  {
    RoomWhenChecked(acts, t);
    i, j := SinceCheck(acts, t);
  }

  /** With no configure at all, no counter ever passes the default limit. */
  lemma {:induction false} NeverAboveDefault(acts: seq<Action>, t: nat)
    requires Exec(acts).Some? && t in Exec(acts).value.tasks && forall k :: 0 <= k < |acts| ==> !acts[k].Configure?
    ensures var task := Exec(acts).value.tasks[t];
            task.max == DEFAULT_MAX && task.count <= DEFAULT_MAX && (task.pc.Creating? ==> task.count < DEFAULT_MAX)
  {
    var pre := acts[..|acts| - 1];
    if t in Exec(pre).value.tasks {
      NeverAboveDefault(pre, t);
    }
  }
}
