/**
 * unshare(2) on the fs_struct and the descriptor table, while other tasks clone, exit and unshare.
 * `users` and `count` are the reference counts of the live objects; touching or freeing one that
 * is not live sets `crashed`.  A C variable that may be NULL is a map that may lack the task.
 */
module Unshare {
  import opened Lists
  import opened Holders

  // ----- The flags -----

  datatype Flag =
    | CloneVm | CloneFs | CloneFiles | CloneSighand | CloneThread | CloneNewNs | CloneSysVSem
    | CloneNewCgroup | CloneNewUts | CloneNewIpc | CloneNewUser | CloneNewPid | CloneNewNet | CloneNewTime
    | Unknown(bit: nat)

  /** What unsharing f forces to be unshared as well. */
  function Needs(f: Flag): set<Flag> {
    match f
    case CloneNewUser => {CloneThread, CloneFs}
    case CloneVm => {CloneSighand}
    case CloneSighand => {CloneThread}
    case CloneNewNs => {CloneFs}
    case _ => {}
  }

  predicate Closed(flags: set<Flag>) {
    forall f :: f in flags ==> Needs(f) <= flags
  }

  /** The ordered pass at the head of ksys_unshare: the least closed set above the given flags. */
  function Close(flags: set<Flag>): (r: set<Flag>)
    ensures Closed(r) && flags <= r
    ensures forall c: set<Flag> {:trigger Closed(c)} :: Closed(c) && flags <= c ==> r <= c
  {
    var f1 := if CloneNewUser in flags then flags + {CloneThread, CloneFs} else flags;
    var f2 := if CloneVm in f1 then f1 + {CloneSighand} else f1;
    var f3 := if CloneSighand in f2 then f2 + {CloneThread} else f2;
    if CloneNewNs in f3 then f3 + {CloneFs} else f3
  }

  lemma CloseIsFixpoint(flags: set<Flag>)
    ensures Close(Close(flags)) == Close(flags)
  {
    assert Closed(Close(flags));
  }

  /** What check_unshare_flags reads about the caller. */
  datatype Caller = Caller(aloneInGroup: bool, sighandCount: nat, singleThreaded: bool)

  predicate Accepted(flags: set<Flag>, who: Caller) {
    && (forall f :: f in flags ==> !f.Unknown?)
    && (CloneThread in flags || CloneSighand in flags || CloneVm in flags ==> who.aloneInGroup)
    && (CloneSighand in flags || CloneVm in flags ==> who.sighandCount <= 1)
    && (CloneVm in flags ==> who.singleThreaded)
  }

  /** In terms of the flags the caller passed: a new user namespace too needs a lone thread. */
  lemma AcceptedIff(flags: set<Flag>, who: Caller)
    ensures Accepted(Close(flags), who) <==>
      && (forall f :: f in flags ==> !f.Unknown?)
      && ({CloneThread, CloneSighand, CloneVm, CloneNewUser} * flags != {} ==> who.aloneInGroup)
      && ({CloneSighand, CloneVm} * flags != {} ==> who.sighandCount <= 1)
      && (CloneVm in flags ==> who.singleThreaded)
  {
    var r := Close(flags);
    var deep, mid := {CloneThread, CloneSighand, CloneVm, CloneNewUser} * flags, {CloneSighand, CloneVm} * flags;
    assert CloneVm in r <==> CloneVm in flags;
    assert CloneSighand in r <==> CloneSighand in mid || CloneVm in mid;
    assert CloneThread in r <==> CloneThread in deep || CloneSighand in deep || CloneVm in deep || CloneNewUser in deep;
    assert forall f :: f in mid ==> f == CloneSighand || f == CloneVm;
    assert forall f :: f in deep ==> f == CloneThread || f == CloneSighand || f == CloneVm || f == CloneNewUser;
    assert forall f :: f in r && f !in flags ==> !f.Unknown?;
  }

  // ----- The two tables of shared objects -----

  /**
   * `of` is the field fs of each task and `users` the count in each live fs_struct.  The variable
   * new_fs is in `copy` while it holds a copy, in `stale` once it holds what the swap (or exit_fs)
   * left without a user.
   */
  datatype FsTable = FsTable(of: map<nat, nat>, copy: map<nat, nat>, stale: map<nat, nat>, users: map<nat, nat>)

  function FsCopy(x: FsTable, t: nat, n: nat): FsTable {
    x.(copy := x.copy[t := n], users := x.users[n := 1])
  }

  /** Task t is out of f; None means f was not live. */
  function FsLeave(x: FsTable, t: nat, f: nat): Option<FsTable> {
    if f !in x.users || x.users[f] == 0 then None
    else if x.users[f] > 1 then Some(x.(users := x.users[f := x.users[f] - 1]))
    else Some(x.(users := x.users[f := 0], stale := x.stale[t := f]))
  }

  function FsSwap(x: FsTable, t: nat): Option<FsTable> {
    if t !in x.copy then Some(x)
    else if t !in x.of then None
    else FsLeave(x.(of := x.of[t := x.copy[t]], copy := x.copy - {t}), t, x.of[t])
  }

  /** free_fs_struct on new_fs, whichever it holds. */
  function FsFree(x: FsTable, t: nat): Option<FsTable> {
    if t in x.copy then
      if x.copy[t] !in x.users then None
      else Some(x.(users := x.users - {x.copy[t]}, copy := x.copy - {t}))
    else if t in x.stale then
      if x.stale[t] !in x.users then None
      else Some(x.(users := x.users - {x.stale[t]}, stale := x.stale - {t}))
    else Some(x)
  }

  /** copy_fs: the fs_struct of the child that t builds, t's own or a fresh copy n. */
  function FsHold(x: FsTable, t: nat, share: bool, n: nat): Option<FsTable> {
    if t !in x.of || x.of[t] !in x.users then None
    else if share then Some(x.(copy := x.copy[t := x.of[t]], users := x.users[x.of[t] := x.users[x.of[t]] + 1]))
    else Some(FsCopy(x, t, n))
  }

  function FsGive(x: FsTable, t: nat, c: nat): Option<FsTable> {
    if t !in x.copy then None else Some(x.(of := x.of[c := x.copy[t]], copy := x.copy - {t}))
  }

  /** exit_fs on the child that t gives up. */
  function FsLetGo(x: FsTable, t: nat): Option<FsTable> {
    if t !in x.copy || t in x.stale then None else FsLeave(x.(copy := x.copy - {t}), t, x.copy[t])
  }

  function FsExit(x: FsTable, t: nat): Option<FsTable>
    requires t in x.of
  {
    if t in x.stale then None else FsLeave(x.(of := x.of - {t}), t, x.of[t])
  }

  // ----- The machine -----

  /** Which of the two objects the call is to unshare. */
  datatype Want = Want(fs: bool, files: bool)

  /** Where a task stands; `ok` is false once the call has failed. */
  datatype Pc =
    | User
    | TestFs(w: Want) | CopyFs(w: Want)
    | TestFd(w: Want) | CopyFd(w: Want)
    | Namespaces(w: Want)                    // unshare_userns to set_cred_ucounts
    | SwapFs(w: Want) | SwapFd(w: Want)
    | CleanFd(w: Want, ok: bool) | CleanFs(w: Want, ok: bool)
    | Returning(w: Want, ok: bool)
    | Cloning                                // the half-built child's table is in new_fd
    | CloningFs                              // and its fs_struct in new_fs
    | GivingUp                               // exit_fs has dropped the latter
    | Exiting

  /** A clone that failed still has the child's table to put. */
  const GIVE_UP_FD: Pc := CleanFd(Want(false, false), false)

  /** In `fd`, `of` is the field files and `copy` the variable new_fd. */
  datatype State = State(pc: map<nat, Pc>, fs: FsTable, fd: Table, crashed: bool)

  datatype Action =
    | Call(t: nat, flags: set<Flag>, who: Caller)
    | DoTestFs(t: nat) | DoCopyFs(t: nat, n: nat) | CopyFsFails(t: nat)
    | DoTestFd(t: nat) | DoCopyFd(t: nat, n: nat) | CopyFdFails(t: nat)
    | DoNamespaces(t: nat, ok: bool)
    | DoSwapFs(t: nat) | DoSwapFd(t: nat)
    | PutFd(t: nat) | FreeFs(t: nat) | Return(t: nat)
    | HoldFd(t: nat, share: bool, n: nat) | HoldFs(t: nat, share: bool, n: nat) | Attach(t: nat, c: nat)
    | CloneFails(t: nat) | DropChildFs(t: nat)
    | Exit(t: nat) | ExitFiles(t: nat) | ExitFs(t: nat)

  predicate Enabled(st: State, a: Action) {
    a.t in st.pc &&
    var pc := st.pc[a.t];
    match a
    case Call(t, flags, who) => pc.User? && Accepted(Close(flags), who)
    case DoTestFs(t) => pc.TestFs?
    case DoCopyFs(t, n) => pc.CopyFs? && n !in st.fs.users
    case CopyFsFails(t) => pc.CopyFs?
    case DoTestFd(t) => pc.TestFd?
    case DoCopyFd(t, n) => pc.CopyFd? && n !in st.fd.count
    case CopyFdFails(t) => pc.CopyFd?
    case DoNamespaces(t, ok) => pc.Namespaces?
    case DoSwapFs(t) => pc.SwapFs?
    case DoSwapFd(t) => pc.SwapFd?
    case PutFd(t) => pc.CleanFd? || (pc.Exiting? && t in st.fd.copy)
    case FreeFs(t) => pc.CleanFs? || pc.GivingUp? || (pc.Exiting? && t in st.fs.stale)
    case Return(t) => pc.Returning?
    case HoldFd(t, share, n) => pc.User? && n !in st.fd.count
    case HoldFs(t, share, n) => pc.Cloning? && n !in st.fs.users
    case Attach(t, c) => pc.CloningFs? && c !in st.pc
    case CloneFails(t) => pc.Cloning?
    case DropChildFs(t) => pc.CloningFs?
    case Exit(t) => pc.User?
    case ExitFiles(t) => pc.Exiting? && t in st.fd.of
    case ExitFs(t) => pc.Exiting? && t in st.fs.of
  }

  function Go(st: State, t: nat, pc: Pc): State {
    st.(pc := st.pc[t := pc])
  }

  function Crash(st: State): State { st.(crashed := true) }

  function GoFs(st: State, t: nat, pc: Pc, x: Option<FsTable>): State {
    if x.None? then Crash(st) else Go(st, t, pc).(fs := x.value)
  }

  function GoFd(st: State, t: nat, pc: Pc, x: Option<Table>): State {
    if x.None? then Crash(st) else Go(st, t, pc).(fd := x.value)
  }

  function Do(st: State, a: Action): State
    requires Enabled(st, a)
  {
    var pc := st.pc[a.t];
    match a
    case Call(t, flags, who) => Go(st, t, TestFs(Want(CloneFs in Close(flags), CloneFiles in Close(flags))))
    case DoTestFs(t) =>
      if !pc.w.fs || t !in st.fs.of then Go(st, t, TestFd(pc.w))
      else if st.fs.of[t] !in st.fs.users then Crash(st)
      else Go(st, t, if st.fs.users[st.fs.of[t]] == 1 then TestFd(pc.w) else CopyFs(pc.w))
    case DoCopyFs(t, n) => GoFs(st, t, TestFd(pc.w), Some(FsCopy(st.fs, t, n)))
    case CopyFsFails(t) => Go(st, t, Returning(pc.w, false))
    case DoTestFd(t) =>
      if !pc.w.files || t !in st.fd.of then Go(st, t, Namespaces(pc.w))
      else if st.fd.of[t] !in st.fd.count then Crash(st)
      else Go(st, t, if st.fd.count[st.fd.of[t]] > 1 then CopyFd(pc.w) else Namespaces(pc.w))
    case DoCopyFd(t, n) => GoFd(st, t, Namespaces(pc.w), Some(Fresh(st.fd, t, n)))
    case CopyFdFails(t) => Go(st, t, CleanFs(pc.w, false))
    case DoNamespaces(t, ok) => Go(st, t, if ok then SwapFs(pc.w) else CleanFd(pc.w, false))
    case DoSwapFs(t) => GoFs(st, t, SwapFd(pc.w), FsSwap(st.fs, t))
    case DoSwapFd(t) => GoFd(st, t, CleanFd(pc.w, true), Swap(st.fd, t))
    case PutFd(t) => GoFd(st, t, if pc.Exiting? then pc else CleanFs(pc.w, pc.ok), Put(st.fd, t))
    case FreeFs(t) =>
      var pc' := if pc.Exiting? then pc else if pc.GivingUp? then GIVE_UP_FD else Returning(pc.w, pc.ok);
      GoFs(st, t, pc', FsFree(st.fs, t))
    case Return(t) => Go(st, t, User)
    case HoldFd(t, share, n) => GoFd(st, t, Cloning, Hold(st.fd, t, share, n))
    case HoldFs(t, share, n) => GoFs(st, t, CloningFs, FsHold(st.fs, t, share, n))
    case Attach(t, c) =>
      var x, y := FsGive(st.fs, t, c), Give(st.fd, t, c);
      if x.None? || y.None? then Crash(st) else State(st.pc[t := User][c := User], x.value, y.value, st.crashed)
    case DropChildFs(t) => GoFs(st, t, GivingUp, FsLetGo(st.fs, t))
    case CloneFails(t) => Go(st, t, GIVE_UP_FD)
    case Exit(t) => Go(st, t, Exiting)
    case ExitFiles(t) => GoFd(st, t, pc, Retire(st.fd, t))
    case ExitFs(t) => GoFs(st, t, pc, FsExit(st.fs, t))
  }

  /** One task with its own fs_struct and table. */
  const INIT: State :=
    State(
      map[0 := User], FsTable(map[0 := 0], map[], map[], map[0 := 1]), Table(map[0 := 0], map[], map[0 := 1]), false)

  /** The state after a run, or None when some action was not enabled. */
  function Exec(acts: seq<Action>): Option<State> {
    if acts == [] then Some(INIT)
    else
      var r := Exec(acts[..|acts| - 1]);
      var a := acts[|acts| - 1];
      if r.Some? && Enabled(r.value, a) then Some(Do(r.value, a)) else None
  }

  // ----- Counts -----

  /** Each count is the number of users and waiting copies; at zero exactly one task has the object to free. */
  ghost predicate FsOk(x: FsTable) {
    && (forall t :: t in x.of ==> x.of[t] in x.users)
    && (forall t :: t in x.copy ==> x.copy[t] in x.users)
    && (forall t :: t in x.stale ==> x.stale[t] in x.users)
    && (forall f :: f in x.users ==> x.users[f] == Cnt(x.of, f) + Cnt(x.copy, f))
    && (forall f :: f in x.users ==> Cnt(x.stale, f) == if x.users[f] == 0 then 1 else 0)
  }

  predicate FsHas(x: FsTable, t: nat, f: nat) {
    (t in x.of && x.of[t] == f) || (t in x.copy && x.copy[t] == f)
  }

  /** Between x and y only t's pointers changed (and c's appeared); what others have to themselves they keep. */
  ghost predicate FsRest(x: FsTable, y: FsTable, t: nat, c: nat) {
    && SameBut(x.of, y.of, t, c) && SameBut(x.copy, y.copy, t, t) && SameBut(x.stale, y.stale, t, t)
    && forall u, f :: u != t && FsHas(x, u, f) && Sole(x.users, f) ==> Sole(y.users, f)
  }

  /** An object one task has to itself is no other task's. */
  lemma FsSoleIsMine(x: FsTable, t: nat, u: nat, f: nat)
    requires FsOk(x) && Sole(x.users, f) && FsHas(x, u, f) && t != u
    ensures !FsHas(x, t, f) && !(t in x.stale && x.stale[t] == f)
  {
    if t in x.of && x.of[t] == f { CntHeld(x.of, t); if u in x.of && x.of[u] == f { CntTwo(x.of, t, u); } }
    if u in x.of && x.of[u] == f { CntHeld(x.of, u); }
    if t in x.copy && x.copy[t] == f { CntHeld(x.copy, t); if u in x.copy && x.copy[u] == f { CntTwo(x.copy, t, u); } }
    if u in x.copy && x.copy[u] == f { CntHeld(x.copy, u); }
    if t in x.stale && x.stale[t] == f { CntHeld(x.stale, t); }
  }

  /** A step of t that touches the count of g only, g being t's or new, leaves the others be. */
  lemma FsRestBy(x: FsTable, y: FsTable, t: nat, c: nat, g: nat)
    requires FsOk(x) && (FsHas(x, t, g) || (t in x.stale && x.stale[t] == g) || g !in x.users)
    requires SameBut(x.of, y.of, t, c) && SameBut(x.copy, y.copy, t, t) && SameBut(x.stale, y.stale, t, t)
    requires SameBut(x.users, y.users, g, g)
    ensures FsRest(x, y, t, c)
  {
    hide FsOk, SameBut, FsHas;
    forall u, f | u != t && FsHas(x, u, f) && Sole(x.users, f) ensures Sole(y.users, f) {
      SoleStays(x, y, t, g, u, f);
    }
  }

  lemma FsRestSelf(x: FsTable, t: nat)
    ensures FsRest(x, x, t, t)
  {
  }

  lemma SoleStays(x: FsTable, y: FsTable, t: nat, g: nat, u: nat, f: nat)
    requires FsOk(x) && (FsHas(x, t, g) || (t in x.stale && x.stale[t] == g) || g !in x.users)
    requires SameBut(x.users, y.users, g, g)
    requires u != t && FsHas(x, u, f) && Sole(x.users, f)
    ensures Sole(y.users, f)
  {
    hide Cnt;
    FsSoleIsMine(x, t, u, f);
  }

  lemma FsCopyOk(x: FsTable, t: nat, n: nat)
    requires FsOk(x) && n !in x.users && t !in x.copy
    ensures FsOk(FsCopy(x, t, n)) && FsRest(x, FsCopy(x, t, n), t, t)
  {
    hide Cnt, FsRest;
    var y := FsCopy(x, t, n);
    forall f | f in y.users
      ensures y.users[f] == Cnt(y.of, f) + Cnt(y.copy, f) && Cnt(y.stale, f) == if y.users[f] == 0 then 1 else 0
    {
      CntAdd(x.copy, t, n, f);
      if f == n { CntUnheld(x.of, f); CntUnheld(x.copy, f); CntUnheld(x.stale, f); }
    }
    FsRestBy(x, y, t, t, n);
  }

  /** Nobody points to f for one of its counts. */
  ghost predicate FsOwes(x: FsTable, f: nat) {
    && f in x.users
    && (forall u :: u in x.of ==> x.of[u] in x.users)
    && (forall u :: u in x.copy ==> x.copy[u] in x.users)
    && (forall u :: u in x.stale ==> x.stale[u] in x.users)
    && (forall g :: g in x.users ==> x.users[g] == Cnt(x.of, g) + Cnt(x.copy, g) + if g == f then 1 else 0)
    && (forall g :: g in x.users ==> Cnt(x.stale, g) == if x.users[g] == 0 then 1 else 0)
  }

  lemma FsLeaveOk(x: FsTable, t: nat, f: nat)
    requires FsOwes(x, f) && t !in x.stale
    ensures FsLeave(x, t, f).Some? && FsOk(FsLeave(x, t, f).value)
  {
    hide Cnt;
    var y := FsLeave(x, t, f).value;
    forall g | g in y.users ensures Cnt(y.stale, g) == if y.users[g] == 0 then 1 else 0 {
      CntAdd(x.stale, t, f, g);
    }
  }

  function Swapped(x: FsTable, t: nat): FsTable
    requires t in x.copy && t in x.of
  {
    x.(of := x.of[t := x.copy[t]], copy := x.copy - {t})
  }

  lemma SwappedOwes(x: FsTable, t: nat)
    requires FsOk(x) && t in x.copy && t in x.of
    ensures FsOwes(Swapped(x, t), x.of[t])
  {
    hide Cnt;
    var z := Swapped(x, t);
    forall g | g in z.users
      ensures z.users[g] == Cnt(z.of, g) + Cnt(z.copy, g) + if g == x.of[t] then 1 else 0
    {
      CntMove(x.of, t, x.copy[t], g);
      CntDel(x.copy, t, g);
    }
  }

  lemma FsSwapOk(x: FsTable, t: nat)
    requires FsOk(x) && t in x.copy && t in x.of && t !in x.stale
    ensures var y := FsSwap(x, t); y.Some? && FsOk(y.value) && FsRest(x, y.value, t, t)
    ensures Sole(x.users, x.copy[t]) ==> Sole(FsSwap(x, t).value.users, x.copy[t])
  {
    hide FsOk, FsOwes, FsRest;
    SwappedOwes(x, t);
    FsLeaveOk(Swapped(x, t), t, x.of[t]);
    if Sole(x.users, x.copy[t]) { CopyIsOther(x, t); }
    FsRestBy(x, FsSwap(x, t).value, t, t, x.of[t]);
  }

  lemma CopyIsOther(x: FsTable, t: nat)
    requires FsOk(x) && t in x.copy && t in x.of && Sole(x.users, x.copy[t])
    ensures x.copy[t] != x.of[t]
  {
    hide Cnt;
    CntHeld(x.of, t);
    CntHeld(x.copy, t);
  }

  lemma LeftOwes(x: FsTable, t: nat)
    requires FsOk(x) && t in x.of
    ensures FsOwes(x.(of := x.of - {t}), x.of[t])
  {
    hide Cnt;
    var z := x.(of := x.of - {t});
    forall g | g in z.users
      ensures z.users[g] == Cnt(z.of, g) + Cnt(z.copy, g) + if g == x.of[t] then 1 else 0
    {
      CntDel(x.of, t, g);
    }
  }

  lemma FsExitOk(x: FsTable, t: nat)
    requires FsOk(x) && t in x.of && t !in x.stale
    ensures var y := FsExit(x, t); y.Some? && FsOk(y.value) && FsRest(x, y.value, t, t)
  {
    hide FsOk, FsOwes, FsRest;
    LeftOwes(x, t);
    FsLeaveOk(x.(of := x.of - {t}), t, x.of[t]);
    FsRestBy(x, FsExit(x, t).value, t, t, x.of[t]);
  }

  lemma FsFreeCopy(x: FsTable, t: nat)
    requires FsOk(x) && t in x.copy && Sole(x.users, x.copy[t])
    ensures FsFree(x, t).Some? && FsOk(FsFree(x, t).value)
  {
    hide Cnt;
    var y, g := FsFree(x, t).value, x.copy[t];
    CntHeld(x.copy, t);
    forall u | u in y.of ensures y.of[u] != g { CntHeld(x.of, u); }
    forall u | u in y.copy ensures y.copy[u] != g { if x.copy[u] == g { CntTwo(x.copy, t, u); } }
    forall u | u in y.stale ensures y.stale[u] != g { CntHeld(x.stale, u); }
    forall f | f in y.users ensures y.users[f] == Cnt(y.of, f) + Cnt(y.copy, f) { CntDel(x.copy, t, f); }
  }

  lemma FsFreeStale(x: FsTable, t: nat)
    requires FsOk(x) && t !in x.copy && t in x.stale
    ensures FsFree(x, t).Some? && FsOk(FsFree(x, t).value) && x.users[x.stale[t]] == 0
  {
    hide Cnt;
    var y, g := FsFree(x, t).value, x.stale[t];
    CntHeld(x.stale, t);
    forall u | u in y.of ensures y.of[u] != g { CntHeld(x.of, u); }
    forall u | u in y.copy ensures y.copy[u] != g { CntHeld(x.copy, u); }
    forall u | u in y.stale ensures y.stale[u] != g { if x.stale[u] == g { CntTwo(x.stale, t, u); } }
    forall f | f in y.users ensures Cnt(y.stale, f) == if y.users[f] == 0 then 1 else 0 { CntDel(x.stale, t, f); }
  }

  lemma FsFreeOk(x: FsTable, t: nat)
    requires FsOk(x) && (t in x.copy ==> Sole(x.users, x.copy[t]))
    ensures var y := FsFree(x, t); y.Some? && FsOk(y.value) && FsRest(x, y.value, t, t)
    ensures t in x.of && t !in x.copy && Sole(x.users, x.of[t]) ==> Sole(FsFree(x, t).value.users, x.of[t])
  {
    hide FsOk, FsRest;
    if t in x.copy {
      FsFreeCopy(x, t);
      FsRestBy(x, FsFree(x, t).value, t, t, x.copy[t]);
    } else if t in x.stale {
      FsFreeStale(x, t);
      FsRestBy(x, FsFree(x, t).value, t, t, x.stale[t]);
    } else {
      FsRestSelf(x, t);
    }
  }

  lemma FsHoldCounts(x: FsTable, t: nat)
    requires FsOk(x) && t in x.of && t !in x.copy
    ensures var y := FsHold(x, t, true, 0); y.Some? && FsOk(y.value)
  {
    hide Cnt;
    var y := FsHold(x, t, true, 0).value;
    CntHeld(x.of, t);
    forall f | f in y.users ensures y.users[f] == Cnt(y.of, f) + Cnt(y.copy, f) { CntAdd(x.copy, t, x.of[t], f); }
  }

  lemma FsHoldOk(x: FsTable, t: nat, share: bool, n: nat)
    requires FsOk(x) && t in x.of && t !in x.copy && n !in x.users
    ensures var y := FsHold(x, t, share, n); y.Some? && FsOk(y.value) && FsRest(x, y.value, t, t) && y.value.of == x.of
  {
    hide FsOk, FsRest;
    assert x.of[t] in x.users by { FsPoints(x, t); }
    if share {
      FsHoldCounts(x, t);
      FsRestBy(x, FsHold(x, t, true, 0).value, t, t, x.of[t]);
    } else {
      FsCopyOk(x, t, n);
    }
  }

  lemma FsPoints(x: FsTable, t: nat)
    requires FsOk(x)
    ensures t in x.of ==> x.of[t] in x.users
    ensures t in x.copy ==> x.copy[t] in x.users
  {
  }

  lemma FsGiveCounts(x: FsTable, t: nat, c: nat)
    requires FsOk(x) && t in x.copy && c !in x.of
    ensures FsOk(FsGive(x, t, c).value)
  {
    hide Cnt;
    var y := FsGive(x, t, c).value;
    forall f | f in y.users ensures y.users[f] == Cnt(y.of, f) + Cnt(y.copy, f) {
      CntAdd(x.of, c, x.copy[t], f);
      CntDel(x.copy, t, f);
    }
  }

  lemma FsGiveOk(x: FsTable, t: nat, c: nat)
    requires FsOk(x) && t in x.copy && c !in x.of && c != t
    ensures var y := FsGive(x, t, c); y.Some? && FsOk(y.value) && FsRest(x, y.value, t, c)
  {
    hide FsOk, FsRest;
    FsGiveCounts(x, t, c);
    FsRestBy(x, FsGive(x, t, c).value, t, c, x.copy[t]);
  }

  lemma LetGoOwes(x: FsTable, t: nat)
    requires FsOk(x) && t in x.copy
    ensures FsOwes(x.(copy := x.copy - {t}), x.copy[t])
  {
    hide Cnt;
    var z := x.(copy := x.copy - {t});
    forall g | g in z.users
      ensures z.users[g] == Cnt(z.of, g) + Cnt(z.copy, g) + if g == x.copy[t] then 1 else 0
    {
      CntDel(x.copy, t, g);
    }
  }

  lemma FsLetGoOk(x: FsTable, t: nat)
    requires FsOk(x) && t in x.copy && t !in x.stale
    ensures var y := FsLetGo(x, t); y.Some? && FsOk(y.value) && FsRest(x, y.value, t, t) && y.value.of == x.of
  {
    hide FsOk, FsOwes, FsRest;
    LetGoOwes(x, t);
    FsLeaveOk(x.(copy := x.copy - {t}), t, x.copy[t]);
    FsRestBy(x, FsLetGo(x, t).value, t, t, x.copy[t]);
  }

  // ----- The invariant -----

  predicate MayCopyFs(pc: Pc) {
    pc.TestFd? || pc.CopyFd? || pc.Namespaces? || pc.SwapFs? || ((pc.CleanFd? || pc.CleanFs?) && !pc.ok)
  }

  predicate MayFreeFs(pc: Pc) {
    pc.SwapFd? || ((pc.CleanFd? || pc.CleanFs?) && pc.ok) || pc.GivingUp? || pc.Exiting?
  }

  predicate FsDone(pc: Pc) {
    pc.SwapFd? || ((pc.CleanFd? || pc.CleanFs? || pc.Returning?) && pc.ok)
  }

  predicate FdDone(pc: Pc) {
    (pc.CleanFd? || pc.CleanFs? || pc.Returning?) && pc.ok
  }

  /** What holds of task t's fs_struct pointers at pc. */
  predicate FsLocal(pc: Pc, t: nat, x: FsTable) {
    && (!pc.Exiting? ==> t in x.of)
    && (t in x.copy ==> pc.CloningFs? || (MayCopyFs(pc) && Sole(x.users, x.copy[t])))
    && (pc.CloningFs? ==> t in x.copy)
    && (t in x.stale ==> MayFreeFs(pc) && (pc.Exiting? ==> t !in x.of))
    && ((pc.TestFd? || pc.CopyFd? || pc.Namespaces? || pc.SwapFs?) && pc.w.fs && t !in x.copy ==>
         Sole(x.users, x.of[t]))
    && (FsDone(pc) && pc.w.fs ==> Sole(x.users, x.of[t]))
  }

  /** What holds of task t's table pointers at pc. */
  predicate FdLocal(pc: Pc, t: nat, x: Table) {
    && (!pc.Exiting? ==> t in x.of)
    && (t in x.copy ==>
          || pc.Namespaces? || pc.SwapFs? || pc.SwapFd? || pc.CleanFd? || pc.Cloning? || pc.CloningFs? || pc.GivingUp?
          || (pc.Exiting? && t !in x.of))
    && (pc.Cloning? || pc.CloningFs? ==> t in x.copy)
    && ((pc.Namespaces? || pc.SwapFs? || pc.SwapFd?) && t in x.copy ==> Sole(x.count, x.copy[t]))
    && ((pc.Namespaces? || pc.SwapFs? || pc.SwapFd?) && pc.w.files && t !in x.copy ==> Sole(x.count, x.of[t]))
    && (FdDone(pc) && pc.w.files ==> Sole(x.count, x.of[t]))
  }

  ghost predicate Inv(st: State) {
    && !st.crashed && FsOk(st.fs) && TableOk(st.fd)
    && (forall t :: t in st.pc ==> FsLocal(st.pc[t], t, st.fs))
    && (forall t :: t in st.pc ==> FdLocal(st.pc[t], t, st.fd))
    && (forall t :: t in st.fs.of ==> t in st.pc)
    && (forall t :: t in st.fs.copy ==> t in st.pc)
    && (forall t :: t in st.fs.stale ==> t in st.pc)
    && (forall t :: t in st.fd.of ==> t in st.pc)
    && (forall t :: t in st.fd.copy ==> t in st.pc)
  }

  lemma FsLocalRest(x: FsTable, y: FsTable, t: nat, c: nat, u: nat, pc: Pc)
    requires FsRest(x, y, t, c) && u != t && u != c && FsLocal(pc, u, x)
    ensures FsLocal(pc, u, y)
  {
    assert u in x.of ==> FsHas(x, u, x.of[u]);
    assert u in x.copy ==> FsHas(x, u, x.copy[u]);
  }

  lemma FdLocalRest(x: Table, y: Table, t: nat, c: nat, u: nat, pc: Pc)
    requires Rest(x, y, t, c) && u != t && u != c && FdLocal(pc, u, x)
    ensures FdLocal(pc, u, y)
  {
    assert u in x.of ==> Has(x, u, x.of[u]);
    assert u in x.copy ==> Has(x, u, x.copy[u]);
  }

  /** A step of t on the fs table is good when the table stays right and t's own pointers suit its new pc. */
  lemma FsStep(st: State, t: nat, pc: Pc, y: FsTable)
    requires Inv(st) && t in st.pc && FsOk(y) && FsRest(st.fs, y, t, t)
    requires FsLocal(pc, t, y) && FdLocal(pc, t, st.fd)
    ensures Inv(Go(st, t, pc).(fs := y))
  {
    hide FsOk, TableOk, FsLocal, FdLocal;
    forall u | u in st.pc && u != t ensures FsLocal(st.pc[u], u, y) { FsLocalRest(st.fs, y, t, t, u, st.pc[u]); }
  }

  lemma FdStep(st: State, t: nat, pc: Pc, y: Table)
    requires Inv(st) && t in st.pc && TableOk(y) && Rest(st.fd, y, t, t)
    requires FsLocal(pc, t, st.fs) && FdLocal(pc, t, y)
    ensures Inv(Go(st, t, pc).(fd := y))
  {
    hide FsOk, TableOk, FsLocal, FdLocal;
    forall u | u in st.pc && u != t ensures FdLocal(st.pc[u], u, y) { FdLocalRest(st.fd, y, t, t, u, st.pc[u]); }
  }

  lemma PcStep(st: State, t: nat, pc: Pc)
    requires Inv(st) && t in st.pc && FsLocal(pc, t, st.fs) && FdLocal(pc, t, st.fd)
    ensures Inv(Go(st, t, pc))
  {
    hide FsLocal, FdLocal, FsOk, TableOk;
  }

  lemma Mine(st: State, t: nat)
    requires Inv(st) && t in st.pc
    ensures FsLocal(st.pc[t], t, st.fs) && FdLocal(st.pc[t], t, st.fd)
    ensures FsOk(st.fs) && TableOk(st.fd)
    ensures t in st.fs.of ==> st.fs.of[t] in st.fs.users
    ensures t in st.fd.of ==> st.fd.of[t] in st.fd.count && st.fd.count[st.fd.of[t]] > 0
  {
  }

  /** The steps that read a count. */
  lemma TestKeeps(st: State, a: Action)
    requires Inv(st) && Enabled(st, a) && (a.DoTestFs? || a.DoTestFd?)
    ensures Inv(Do(st, a))
  {
    hide Inv, FsOk, TableOk, Close, Accepted;
    Mine(st, a.t);
    PcStep(st, a.t, Do(st, a).pc[a.t]);
  }

  /** Steps that touch no table. */
  lemma PlainKeeps(st: State, a: Action)
    requires Inv(st) && Enabled(st, a)
    requires a.Call? || a.Return? || a.CloneFails? || a.Exit?
    ensures Inv(Do(st, a))
  {
    hide Inv, FsOk, TableOk, Close, Accepted;
    Mine(st, a.t);
    PcStep(st, a.t, Do(st, a).pc[a.t]);
  }

  lemma FailKeeps(st: State, a: Action)
    requires Inv(st) && Enabled(st, a) && (a.CopyFsFails? || a.CopyFdFails? || a.DoNamespaces?)
    ensures Inv(Do(st, a))
  {
    hide Inv, FsOk, TableOk, Close, Accepted;
    Mine(st, a.t);
    PcStep(st, a.t, Do(st, a).pc[a.t]);
  }

  lemma FsGainKeeps(st: State, a: Action)
    requires Inv(st) && Enabled(st, a) && (a.DoCopyFs? || a.DoSwapFs?)
    ensures Inv(Do(st, a))
  {
    hide Inv, FsOk, TableOk, FsRest, Close, Accepted;
    var t := a.t;
    Mine(st, t);
    if a.DoCopyFs? {
      FsCopyOk(st.fs, t, a.n);
    } else if t in st.fs.copy {
      FsSwapOk(st.fs, t);
    } else {
      FsRestSelf(st.fs, t);
    }
    FsStep(st, t, Do(st, a).pc[t], Do(st, a).fs);
  }

  /** A clone takes an fs_struct for its child, or lets it go again. */
  lemma FsChildKeeps(st: State, a: Action)
    requires Inv(st) && Enabled(st, a) && (a.HoldFs? || a.DropChildFs?)
    ensures Inv(Do(st, a))
  {
    hide Inv, FsOk, TableOk, FsRest, Close, Accepted;
    var t := a.t;
    Mine(st, t);
    if a.HoldFs? { FsHoldOk(st.fs, t, a.share, a.n); } else { FsLetGoOk(st.fs, t); }
    FsStep(st, t, Do(st, a).pc[t], Do(st, a).fs);
  }

  lemma FsExitKeeps(st: State, a: Action)
    requires Inv(st) && Enabled(st, a) && a.ExitFs?
    ensures Inv(Do(st, a))
  {
    hide Inv, FsOk, TableOk, FsRest, Close, Accepted;
    var t := a.t;
    Mine(st, t);
    FsExitOk(st.fs, t);
    FsStep(st, t, Do(st, a).pc[t], Do(st, a).fs);
  }

  lemma FsFreeKeeps(st: State, a: Action)
    requires Inv(st) && Enabled(st, a) && a.FreeFs?
    ensures Inv(Do(st, a))
  {
    hide Inv, FsOk, TableOk, FsRest, Close, Accepted;
    var t := a.t;
    Mine(st, t);
    FsFreeOk(st.fs, t);
    FsStep(st, t, Do(st, a).pc[t], Do(st, a).fs);
  }

  lemma FdGainKeeps(st: State, a: Action)
    requires Inv(st) && Enabled(st, a) && (a.DoCopyFd? || a.DoSwapFd? || a.HoldFd?)
    ensures Inv(Do(st, a))
  {
    hide Inv, FsOk, TableOk, Rest, Close, Accepted;
    var t := a.t;
    Mine(st, t);
    if a.DoCopyFd? {
      FreshOk(st.fd, t, a.n);
    } else if a.HoldFd? {
      HoldOk(st.fd, t, a.share, a.n);
    } else if t in st.fd.copy {
      SwapOk(st.fd, t);
    } else {
      RestSelf(st.fd, t);
    }
    FdStep(st, t, Do(st, a).pc[t], Do(st, a).fd);
  }

  lemma FdDropKeeps(st: State, a: Action)
    requires Inv(st) && Enabled(st, a) && (a.PutFd? || a.ExitFiles?)
    ensures Inv(Do(st, a))
  {
    hide Inv, FsOk, TableOk, Rest, Close, Accepted;
    var t := a.t;
    Mine(st, t);
    if a.PutFd? { PutOk(st.fd, t); } else { RetireOk(st.fd, t); }
    FdStep(st, t, Do(st, a).pc[t], Do(st, a).fd);
  }

  lemma JoinStep(st: State, t: nat, c: nat, y: FsTable, z: Table)
    requires Inv(st) && t in st.pc && c !in st.pc
    requires FsOk(y) && FsRest(st.fs, y, t, c) && TableOk(z) && Rest(st.fd, z, t, c)
    requires FsLocal(User, t, y) && FsLocal(User, c, y) && FdLocal(User, t, z) && FdLocal(User, c, z)
    ensures Inv(State(st.pc[t := User][c := User], y, z, st.crashed))
  {
    hide FsOk, TableOk, FsLocal, FdLocal;
    forall u | u in st.pc && u != t ensures FsLocal(st.pc[u], u, y) && FdLocal(st.pc[u], u, z) {
      FsLocalRest(st.fs, y, t, c, u, st.pc[u]);
      FdLocalRest(st.fd, z, t, c, u, st.pc[u]);
    }
  }

  lemma NoPointers(st: State, c: nat)
    requires Inv(st) && c !in st.pc
    ensures c !in st.fs.of && c !in st.fs.copy && c !in st.fs.stale && c !in st.fd.of && c !in st.fd.copy
  {
  }

  lemma JoinKeeps(st: State, a: Action)
    requires Inv(st) && Enabled(st, a) && a.Attach?
    ensures Inv(Do(st, a))
  {
    hide Inv, FsOk, TableOk, Close, Accepted;
    var t, c := a.t, a.c;
    Mine(st, t);
    NoPointers(st, c);
    FsGiveOk(st.fs, t, c);
    GiveOk(st.fd, t, c);
    JoinStep(st, t, c, FsGive(st.fs, t, c).value, Give(st.fd, t, c).value);
  }

  lemma StepKeeps(st: State, a: Action)
    requires Inv(st) && Enabled(st, a)
    ensures Inv(Do(st, a))
  {
    hide Inv, Enabled, Do;
    if a.Attach? {
      JoinKeeps(st, a);
    } else if a.DoCopyFs? || a.DoSwapFs? {
      FsGainKeeps(st, a);
    } else if a.HoldFs? || a.DropChildFs? {
      FsChildKeeps(st, a);
    } else if a.ExitFs? {
      FsExitKeeps(st, a);
    } else if a.FreeFs? {
      FsFreeKeeps(st, a);
    } else if a.DoCopyFd? || a.DoSwapFd? || a.HoldFd? {
      FdGainKeeps(st, a);
    } else if a.PutFd? || a.ExitFiles? {
      FdDropKeeps(st, a);
    } else if a.DoTestFs? || a.DoTestFd? {
      TestKeeps(st, a);
    } else if a.CopyFsFails? || a.CopyFdFails? || a.DoNamespaces? {
      FailKeeps(st, a);
    } else {
      PlainKeeps(st, a);
    }
  }

  // ----- Every run -----

  lemma InitInv()
    ensures Inv(INIT)
  {
    var m: map<nat, nat> := map[];
    CntAdd(m, 0, 0, 0);
    CntEmpty(0);
  }

  lemma {:induction false} RunKeeps(acts: seq<Action>)
    requires Exec(acts).Some?
    ensures Inv(Exec(acts).value)
  {
    hide Inv, Enabled, Do;
    if acts == [] {
      InitInv();
    } else {
      RunKeeps(acts[..|acts| - 1]);
      StepKeeps(Exec(acts[..|acts| - 1]).value, acts[|acts| - 1]);
    }
  }

  predicate Quiet(st: State, t: nat) {
    t in st.pc && (st.pc[t].User? || (st.pc[t].Exiting? && t !in st.fs.stale && t !in st.fd.copy))
  }

  /**
   * Between calls every live object counts exactly the tasks that point to it, and has one; so every
   * copy that was not installed and every object that lost its last user has been freed.
   */
  lemma CountsAreUsers(acts: seq<Action>)
    requires Exec(acts).Some?
    requires forall t :: t in Exec(acts).value.pc ==> Quiet(Exec(acts).value, t)
    ensures var st := Exec(acts).value;
            && !st.crashed
            && (forall t :: t in st.fs.of ==> st.fs.of[t] in st.fs.users)
            && (forall f :: f in st.fs.users ==> st.fs.users[f] == Cnt(st.fs.of, f) > 0)
            && (forall t :: t in st.fd.of ==> st.fd.of[t] in st.fd.count)
            && (forall f :: f in st.fd.count ==> st.fd.count[f] == Cnt(st.fd.of, f) > 0)
  {
    RunKeeps(acts);
    var st := Exec(acts).value;
    assert st.fs.copy == map[] && st.fs.stale == map[] && st.fd.copy == map[] by { NoLocals(st); }
    forall f ensures Cnt(map[], f) == 0 { CntEmpty(f); }
  }

  lemma NoLocals(st: State)
    requires Inv(st) && forall t :: t in st.pc ==> Quiet(st, t)
    ensures st.fs.copy == map[] && st.fs.stale == map[] && st.fd.copy == map[]
  {
    forall t | t in st.pc ensures t !in st.fs.copy && t !in st.fs.stale && t !in st.fd.copy { Mine(st, t); }
    assert forall t :: t !in st.fs.copy;
    assert forall t :: t !in st.fs.stale;
    assert forall t :: t !in st.fd.copy;
  }

  /** In every reachable state, mid-call included: who refers, who waits to free, and nothing dead in sight. */
  lemma CountsAreReferences(acts: seq<Action>)
    requires Exec(acts).Some?
    ensures var st := Exec(acts).value; !st.crashed && FsOk(st.fs) && TableOk(st.fd)
  {
    RunKeeps(acts);
  }

  /** A call that reports success has left the caller alone on whatever it asked to unshare. */
  lemma SuccessUnshares(acts: seq<Action>, t: nat, w: Want)
    requires Exec(acts).Some? && t in Exec(acts).value.pc && Exec(acts).value.pc[t] == Returning(w, true)
    ensures var st := Exec(acts).value;
            && t in st.fs.of && t in st.fd.of
            && (w.fs ==> forall u :: u in st.fs.of && st.fs.of[u] == st.fs.of[t] ==> u == t)
            && (w.files ==> forall u :: u in st.fd.of && st.fd.of[u] == st.fd.of[t] ==> u == t)
  {
    RunKeeps(acts);
    var st := Exec(acts).value;
    Mine(st, t);
    forall u | w.fs && u in st.fs.of && st.fs.of[u] == st.fs.of[t] && u != t ensures false { CntTwo(st.fs.of, t, u); }
    forall u | w.files && u in st.fd.of && st.fd.of[u] == st.fd.of[t] && u != t ensures false {
      CntTwo(st.fd.of, t, u);
    }
  }

  /** Whether it succeeds or fails, a call that returns holds no copy and no object left to free. */
  lemma ReturnHoldsNothing(acts: seq<Action>, t: nat)
    requires Exec(acts).Some? && t in Exec(acts).value.pc && Exec(acts).value.pc[t].Returning?
    ensures var st := Exec(acts).value; t !in st.fs.copy && t !in st.fs.stale && t !in st.fd.copy
  {
    RunKeeps(acts);
    Mine(Exec(acts).value, t);
  }

  /** An fs_struct is freed only by the step that frees it, when no task points to it. */
  lemma FreedWhenUnused(acts: seq<Action>, a: Action, f: nat)
    requires Exec(acts + [a]).Some? && Exec(acts).Some?
    requires f in Exec(acts).value.fs.users && f !in Exec(acts + [a]).value.fs.users
    ensures a.FreeFs? && forall t :: t in Exec(acts).value.fs.of ==> Exec(acts).value.fs.of[t] != f
  {
    assert (acts + [a])[..|acts + [a]| - 1] == acts;
    RunKeeps(acts);
    var st := Exec(acts).value;
    OnlyFreeFrees(st, a, f);
    Mine(st, a.t);
    var x := st.fs;
    if a.t in x.copy { CntHeld(x.copy, a.t); } else { CntHeld(x.stale, a.t); }
    forall t | t in x.of ensures x.of[t] != f { CntHeld(x.of, t); }
  }

  lemma OnlyFreeFrees(st: State, a: Action, f: nat)
    requires Inv(st) && Enabled(st, a) && f in st.fs.users && f !in Do(st, a).fs.users
    ensures a.FreeFs? && ((a.t in st.fs.copy && st.fs.copy[a.t] == f) || (a.t in st.fs.stale && st.fs.stale[a.t] == f))
  {
    hide Close, Accepted, Inv, Fresh, Hold, Put, Swap, Give, Retire;
  }

  /** Nobody but the task itself, at its swap or its exit, changes which objects it points to. */
  lemma FieldsStable(st: State, a: Action, u: nat)
    requires Enabled(st, a) && u in st.pc
    ensures u in st.fs.of && !(a.t == u && (a.DoSwapFs? || a.ExitFs?)) ==>
      u in Do(st, a).fs.of && Do(st, a).fs.of[u] == st.fs.of[u]
    ensures u in st.fd.of && !(a.t == u && (a.DoSwapFd? || a.ExitFiles?)) ==>
      u in Do(st, a).fd.of && Do(st, a).fd.of[u] == st.fd.of[u]
  {
    hide Close, Accepted;
  }

  // ----- What a call was asked for -----

  /** Step k is where t entered the system call that it is in. */
  ghost predicate Entered(acts: seq<Action>, t: nat, k: nat) {
    && k < |acts| && Exec(acts[..k]).Some? && acts[k].t == t && (acts[k].Call? || acts[k].HoldFd?)
    && forall j :: k < j < |acts| && acts[j].t == t ==> !acts[j].Call? && !acts[j].HoldFd?
  }

  /** Asks for a new fs_struct: itself, or for what can not be had without. */
  predicate AsksFs(flags: set<Flag>) {
    CloneFs in flags || CloneNewNs in flags || CloneNewUser in flags
  }

  lemma CloseAsks(flags: set<Flag>)
    ensures CloneFs in Close(flags) <==> AsksFs(flags)
    ensures CloneFiles in Close(flags) <==> CloneFiles in flags
  {
  }

  /** A clone on its way, or given up. */
  predicate InClone(pc: Pc) {
    pc.Cloning? || pc.CloningFs? || pc.GivingUp? || ((pc.CleanFd? || pc.CleanFs? || pc.Returning?) && !pc.ok)
  }

  predicate InUnshare(pc: Pc) {
    !pc.User? && !pc.Exiting? && !pc.Cloning? && !pc.CloningFs? && !pc.GivingUp?
  }

  /** The call that t made at `a`, in a state where its pointers were those of `st0`, has come to `st`. */
  predicate Serves(a: Action, st0: State, st: State, t: nat)
    requires t in st.pc
  {
    var pc := st.pc[t];
    && (a.HoldFd? ==> InClone(pc))
    && (a.Call? ==>
          && InUnshare(pc) && (pc.w.fs <==> AsksFs(a.flags)) && (pc.w.files <==> CloneFiles in a.flags)
          && (pc.CopyFs? || t in st.fs.copy ==> pc.w.fs) && (pc.CopyFd? || t in st.fd.copy ==> pc.w.files))
    && t in st0.fs.of && t in st0.fd.of && t in st.fs.of && t in st.fd.of
    && ((FsDone(pc) && pc.w.fs) || st.fs.of[t] == st0.fs.of[t])
    && ((FdDone(pc) && pc.w.files) || st.fd.of[t] == st0.fd.of[t])
  }

  lemma EntryServes(st: State, a: Action)
    requires Inv(st) && Enabled(st, a) && (a.Call? || a.HoldFd?)
    ensures Serves(a, st, Do(st, a), a.t)
  {
    hide Inv, FsOk, TableOk, Close, Accepted;
    Mine(st, a.t);
    if a.Call? { CloseAsks(a.flags); }
  }

  /** Another task's step changes nothing of t. */
  lemma OthersLeaveMine(st: State, a: Action, t: nat)
    requires Enabled(st, a) && t in st.pc && a.t != t
    ensures var st' := Do(st, a);
      && t in st'.pc && st'.pc[t] == st.pc[t]
      && (t in st'.fs.copy <==> t in st.fs.copy) && (t in st'.fd.copy <==> t in st.fd.copy)
  {
    hide Close, Accepted;
  }

  lemma OthersServe(e: Action, st0: State, st: State, a: Action, t: nat)
    requires Enabled(st, a) && t in st.pc && a.t != t && (e.Call? || e.HoldFd?) && Serves(e, st0, st, t)
    ensures t in Do(st, a).pc && Serves(e, st0, Do(st, a), t)
  {
    hide Enabled, Do;
    OthersLeaveMine(st, a, t);
    FieldsStable(st, a, t);
  }

  /** Where t's own step leads within one system call. */
  lemma OwnPc(st: State, a: Action)
    requires Inv(st) && Enabled(st, a) && !Do(st, a).crashed && !a.Call? && !a.HoldFd?
    requires !Do(st, a).pc[a.t].User? && !Do(st, a).pc[a.t].Exiting?
    ensures var pc, pc' := st.pc[a.t], Do(st, a).pc[a.t];
      && (InClone(pc) ==> InClone(pc'))
      && (InUnshare(pc) ==>
            InUnshare(pc') && pc'.w == pc.w && (FsDone(pc) ==> FsDone(pc')) && (FdDone(pc) ==> FdDone(pc')))
      && (pc'.CopyFs? ==> pc.TestFs? && pc.w.fs) && (pc'.CopyFd? ==> pc.TestFd? && pc.w.files)
      && (a.DoSwapFs? ==> pc.SwapFs? && FsDone(pc')) && (a.DoSwapFd? ==> pc.SwapFd? && FdDone(pc'))
      && (a.HoldFs? ==> pc.Cloning?) && !a.ExitFs? && !a.ExitFiles?
  {
    hide Inv, Close, Accepted, FsSwap, FsFree, FsHold, FsGive, FsLetGo, FsExit, Swap, Put, Hold, Give, Retire, Fresh;
  }

  /** Which of t's pointers its own step changes. */
  lemma OwnTables(st: State, a: Action)
    requires Enabled(st, a) && !Do(st, a).crashed && !a.Call? && !a.HoldFd? && !a.HoldFs?
    ensures var st', t := Do(st, a), a.t;
      && (t in st'.fs.copy ==> t in st.fs.copy || a.DoCopyFs?)
      && (t in st'.fd.copy ==> t in st.fd.copy || a.DoCopyFd? || a.ExitFiles?)
      && (a.DoSwapFs? && t !in st.fs.copy ==> st'.fs == st.fs) && (a.DoSwapFd? && t !in st.fd.copy ==> st'.fd == st.fd)
      && (a.DoCopyFs? ==> st.pc[t].CopyFs?) && (a.DoCopyFd? ==> st.pc[t].CopyFd?)
  {
    hide Close, Accepted;
  }

  lemma PointsToBoth(st: State, t: nat)
    requires Inv(st) && t in st.pc && !st.pc[t].Exiting?
    ensures !st.crashed && t in st.fs.of && t in st.fd.of
  {
    hide FsOk, TableOk;
  }

  lemma StepServes(e: Action, st0: State, st: State, a: Action, t: nat)
    requires Inv(st) && Enabled(st, a) && Inv(Do(st, a)) && t in st.pc && t in Do(st, a).pc
    requires (e.Call? || e.HoldFd?) && Serves(e, st0, st, t)
    requires a.t == t ==> !a.Call? && !a.HoldFd?
    requires !Do(st, a).pc[t].User? && !Do(st, a).pc[t].Exiting?
    ensures Serves(e, st0, Do(st, a), t)
  {
    hide FsOk, TableOk, FsLocal, FdLocal, Enabled, Do, AsksFs;
    if a.t != t {
      OthersServe(e, st0, st, a, t);
    } else {
      OwnPc(st, a);
      FieldsStable(st, a, t);
      PointsToBoth(Do(st, a), t);
      if !a.HoldFs? { OwnTables(st, a); }
    }
  }

  lemma {:induction false} EveryCallWasEntered(acts: seq<Action>, t: nat) returns (k: nat)
    requires Exec(acts).Some? && t in Exec(acts).value.pc
    requires !Exec(acts).value.pc[t].User? && !Exec(acts).value.pc[t].Exiting?
    ensures Entered(acts, t, k) && Serves(acts[k], Exec(acts[..k]).value, Exec(acts).value, t)
  {
    hide Inv, Serves, Enabled, Do;
    var acts', a := acts[..|acts| - 1], acts[|acts| - 1];
    RunKeeps(acts);
    RunKeeps(acts');
    var st := Exec(acts').value;
    if a.t == t && (a.Call? || a.HoldFd?) {
      k := |acts'|;
      EntryServes(st, a);
    } else {
      StillIn(st, a, t);
      k := EveryCallWasEntered(acts', t);
      assert acts[..k] == acts'[..k];
      StepServes(acts[k], Exec(acts[..k]).value, st, a, t);
    }
  }

  lemma StillIn(st: State, a: Action, t: nat)
    requires Enabled(st, a) && t in Do(st, a).pc && !(a.t == t && (a.Call? || a.HoldFd?))
    requires !Do(st, a).pc[t].User? && !Do(st, a).pc[t].Exiting?
    ensures t in st.pc && !st.pc[t].User? && !st.pc[t].Exiting?
  {
    hide Close, Accepted;
  }

  /**
   * A call that returns, named by the step at which it was entered.  After success the caller is
   * alone on each object that the flags of the call ask for, and has kept each that they do not;
   * after a failure it has kept both.
   */
  lemma CallKeepsItsWord(acts: seq<Action>, t: nat) returns (k: nat)
    requires Exec(acts).Some? && t in Exec(acts).value.pc && Exec(acts).value.pc[t].Returning?
    ensures Entered(acts, t, k)
    ensures var st, st0 := Exec(acts).value, Exec(acts[..k]).value;
      && t in st.fs.of && t in st.fd.of && t in st0.fs.of && t in st0.fd.of
      && (st.pc[t].ok ==>
            && acts[k].Call?
            && (if AsksFs(acts[k].flags) then forall u :: u in st.fs.of && st.fs.of[u] == st.fs.of[t] ==> u == t
                else st.fs.of[t] == st0.fs.of[t])
            && (if CloneFiles in acts[k].flags then forall u :: u in st.fd.of && st.fd.of[u] == st.fd.of[t] ==> u == t
                else st.fd.of[t] == st0.fd.of[t]))
      && (!st.pc[t].ok ==> st.fs.of[t] == st0.fs.of[t] && st.fd.of[t] == st0.fd.of[t])
  {
    hide Exec, AsksFs;
    k := EveryCallWasEntered(acts, t);
    var w := Exec(acts).value.pc[t].w;
    if Exec(acts).value.pc[t].ok { SuccessUnshares(acts, t, w); }
  }

  // ----- Calls that succeed -----

  lemma Then(acts: seq<Action>, a: Action) returns (acts': seq<Action>)
    requires Exec(acts).Some? && Enabled(Exec(acts).value, a)
    ensures acts' == acts + [a] && Exec(acts') == Some(Do(Exec(acts).value, a)) && !Exec(acts').value.crashed
  {
    hide Do, Enabled;
    acts' := acts + [a];
    assert acts'[..|acts'| - 1] == acts;
    RunKeeps(acts');
  }

  /** The first steps of a call: the copies that are needed are made. */
  lemma FsCopyCanBeMade(acts: seq<Action>, t: nat, flags: set<Flag>, who: Caller, n: nat)
    returns (acts': seq<Action>, w: Want)
    requires Exec(acts).Some? && t in Exec(acts).value.pc && Exec(acts).value.pc[t].User?
    requires Accepted(Close(flags), who) && n !in Exec(acts).value.fs.users
    ensures acts < acts' && Exec(acts').Some? && Exec(acts').value.fd == Exec(acts).value.fd
    ensures Exec(acts').value.pc == Exec(acts).value.pc[t := TestFd(w)]
  {
    hide Exec, Accepted, Close, FsSwap, FsFree, FsHold, FsGive, FsLetGo, FsExit, Swap, Put, Hold, Give, Retire;
    acts' := Then(acts, Call(t, flags, who));
    w := Exec(acts').value.pc[t].w;
    acts' := Then(acts', DoTestFs(t));
    if Exec(acts').value.pc[t].CopyFs? { acts' := Then(acts', DoCopyFs(t, n)); }
  }

  lemma CopiesCanBeMade(acts: seq<Action>, t: nat, flags: set<Flag>, who: Caller, n: nat, m: nat)
    returns (acts': seq<Action>)
    requires Exec(acts).Some? && t in Exec(acts).value.pc && Exec(acts).value.pc[t].User?
    requires Accepted(Close(flags), who) && n !in Exec(acts).value.fs.users && m !in Exec(acts).value.fd.count
    ensures acts < acts' && Exec(acts').Some?
    ensures exists w :: Exec(acts').value.pc == Exec(acts).value.pc[t := Namespaces(w)]
  {
    hide Exec, Accepted, Close, FsSwap, FsFree, FsHold, FsGive, FsLetGo, FsExit, Swap, Put, Hold, Give, Retire;
    var w;
    acts', w := FsCopyCanBeMade(acts, t, flags, who, n);
    acts' := Then(acts', DoTestFd(t));
    if Exec(acts').value.pc[t].CopyFd? { acts' := Then(acts', DoCopyFd(t, m)); }
    assert Exec(acts').value.pc == Exec(acts).value.pc[t := Namespaces(w)];
  }

  /** In every reachable state every call with acceptable flags can come to report success. */
  lemma CallCanSucceed(acts: seq<Action>, t: nat, flags: set<Flag>, who: Caller, n: nat, m: nat)
    returns (acts': seq<Action>)
    requires Exec(acts).Some? && t in Exec(acts).value.pc && Exec(acts).value.pc[t].User?
    requires Accepted(Close(flags), who) && n !in Exec(acts).value.fs.users && m !in Exec(acts).value.fd.count
    ensures acts < acts' && Exec(acts').Some?
    ensures exists w :: Exec(acts').value.pc == Exec(acts).value.pc[t := Returning(w, true)]
  {
    hide Exec, Accepted, Close, FsSwap, FsFree, Swap, Put;
    acts' := CopiesCanBeMade(acts, t, flags, who, n, m);
    var w := Exec(acts').value.pc[t].w;
    acts' := Then(acts', DoNamespaces(t, true));
    acts' := Then(acts', DoSwapFs(t));
    acts' := Then(acts', DoSwapFd(t));
    acts' := Then(acts', PutFd(t));
    acts' := Then(acts', FreeFs(t));
    assert Exec(acts').value.pc == Exec(acts).value.pc[t := Returning(w, true)];
  }

  /** Task 0 clones task 1, which shares both objects. */
  lemma ShareBoth() returns (acts: seq<Action>)
    ensures Exec(acts).Some? && Exec(acts).value.pc == map[0 := User, 1 := User]
    ensures Exec(acts).value.fs == FsTable(map[0 := 0, 1 := 0], map[], map[], map[0 := 2])
    ensures Exec(acts).value.fd == Table(map[0 := 0, 1 := 0], map[], map[0 := 2])
  {
    hide Close, Accepted;
    acts := [];
    assert Exec(acts) == Some(INIT);
    acts := Then(acts, HoldFd(0, true, 1));
    acts := Then(acts, HoldFs(0, true, 1));
    acts := Then(acts, Attach(0, 1));
  }

  /** Then task 1 asks to unshare its fs_struct only, and gets a copy. */
  lemma AsksToSplit() returns (acts: seq<Action>)
    ensures Exec(acts).Some?
    ensures Exec(acts).value.pc == map[0 := User, 1 := SwapFs(Want(true, false))]
    ensures Exec(acts).value.fs == FsTable(map[0 := 0, 1 := 0], map[1 := 1], map[], map[0 := 2, 1 := 1])
    ensures Exec(acts).value.fd == Table(map[0 := 0, 1 := 0], map[], map[0 := 2])
  {
    hide Exec, FsSwap, FsFree, FsHold, FsGive, FsLetGo, FsExit, FsLeave, Swap, Put, Hold, Give, Retire;
    acts := ShareBoth();
    acts := Then(acts, Call(1, {CloneFs}, Caller(true, 1, true)));
    acts := Then(acts, DoTestFs(1));
    acts := Then(acts, DoCopyFs(1, 1));
    acts := Then(acts, DoTestFd(1));
    acts := Then(acts, DoNamespaces(1, true));
  }

  /** A run in which the two tasks share both objects, and in the end the table only. */
  lemma SharesThenSplits() returns (acts: seq<Action>)
    ensures Exec(acts).Some?
    ensures Exec(acts).value.pc == map[0 := User, 1 := Returning(Want(true, false), true)]
    ensures Exec(acts).value.fs == FsTable(map[0 := 0, 1 := 1], map[], map[], map[0 := 1, 1 := 1])
    ensures Exec(acts).value.fd == Table(map[0 := 0, 1 := 0], map[], map[0 := 2])
  {
    hide Exec, Close, Accepted, FsHold, FsGive, FsLetGo, FsExit, Hold, Give, Retire;
    acts := AsksToSplit();
    acts := Then(acts, DoSwapFs(1));
    acts := Then(acts, DoSwapFd(1));
    acts := Then(acts, PutFd(1));
    acts := Then(acts, FreeFs(1));
  }
}
