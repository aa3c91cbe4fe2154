/** Duplicating an address space: dup_mm, dup_mmap and the release of a half-built copy. */
module AddressSpace {
  import opened Lists
  import opened AreaTree

  const EINTR: int := 4
  const ENOMEM: int := 12

  datatype VmFlag = DontCopy | Account | WipeOnFork | Locked | LockOnFault | OtherFlag(bit: nat)

  /** What an area says about itself, apart from its links. */
  datatype Area = Area(start: nat, pages: nat, flags: set<VmFlag>)

  class Vma {
    var area: Area
    var owner: Mm
    var next: Vma?
    var prev: Vma?

    /** vm_area_dup: a copy that is linked nowhere. */
    constructor (area: Area, owner: Mm)
      ensures this.area == area && this.owner == owner && next == null && prev == null
    {
      this.area, this.owner, next, prev := area, owner, null, null;
    }
  }

  class Mm {
    var mmap: Vma?
    var tree: Tree<Vma>
    var mapCount: nat
    var totalVm: int
    var writeLocked: bool
    /** The areas in list order. */
    ghost var areas: seq<Vma>

    ghost function Head(): Vma?
      reads this`areas
    {
      if areas == [] then null else areas[0]
    }

    ghost function Last(): Vma?
      reads this`areas
    {
      if areas == [] then null else areas[|areas| - 1]
    }

    ghost predicate ListOk()
      reads this`areas, this`mmap, areas`next, areas`prev
    {
      && NoDup(areas) && mmap == Head()
      && (areas != [] ==> areas[0].prev == null && areas[|areas| - 1].next == null)
      && forall i, j :: 0 <= i && j == i + 1 && j < |areas| ==> areas[i].next == areas[j] && areas[j].prev == areas[i]
    }

    /** The list heads and next pointers, read as positions. */
    lemma Follows(i: nat)
      requires ListOk()
      ensures mmap == Head() && NoDup(areas)
      ensures i < |areas| ==> areas[i].next == if i + 1 < |areas| then areas[i + 1] else null
    {
    }

    /** Every view of the area list agrees: links, tree, count and owner. */
    ghost predicate Valid()
      reads this`areas, this`mmap, this`tree, this`mapCount, areas`next, areas`prev, areas`owner
    {
      && ListOk() && mapCount == |areas| && InOrder(tree) == areas
      && forall i :: 0 <= i < |areas| ==> areas[i].owner == this
    }

    lemma ValidList()
      requires Valid()
      ensures ListOk()
    {
    }

    /** The empty address space that mm_init leaves; the page total is copied from the parent. */
    constructor Empty(totalVm: int)
      ensures Valid() && areas == [] && this.totalVm == totalVm && !writeLocked
    {
      mmap, tree, mapCount, areas := null, Leaf, 0, [];
      this.totalVm, writeLocked := totalVm, false;
    }
  }

  /** The global counters and allocators that duplication draws on. */
  class Kernel {
    var committed: int
    var policyRefs: int
    var vmas: set<Vma>
    var mms: set<Mm>

    constructor ()
    {
      committed, policyRefs, vmas, mms := 0, 0, {}, {};
    }
  }

  ghost function Snaps(vs: seq<Vma>): (r: seq<Area>)
    reads vs`area
    ensures |r| == |vs| && forall i :: 0 <= i < |vs| ==> r[i] == vs[i].area
  {
    if vs == [] then [] else Snaps(vs[..|vs| - 1]) + [vs[|vs| - 1].area]
  }

  ghost function Members(vs: seq<Vma>): set<Vma> {
    set v | v in vs
  }

  function Cleared(a: Area): Area {
    a.(flags := a.flags - {Locked, LockOnFault})
  }

  /** The copy lies where the original does and has its flags, except that it is not locked. */
  ghost predicate CopyOf(copy: Area, a: Area) {
    && copy.start == a.start && copy.pages == a.pages && Locked !in copy.flags && LockOnFault !in copy.flags
    && forall x :: x != Locked && x != LockOnFault ==> (x in copy.flags <==> x in a.flags)
  }

  /** `at` leads in ascending order from the copies to exactly the originals that are to be copied. */
  ghost predicate CopiesAt(copies: seq<Area>, list: seq<Area>, at: seq<nat>) {
    && |at| == |copies|
    && (forall i, j :: 0 <= i < j < |at| ==> at[i] < at[j])
    && (forall i :: 0 <= i < |at| ==> at[i] < |list| && CopyOf(copies[i], list[at[i]]))
    && forall j :: 0 <= j < |list| ==> (j in at <==> DontCopy !in list[j].flags)
  }

  /** The areas a complete duplication of `list` has, in order. */
  ghost function Expected(list: seq<Area>): seq<Area> {
    if list == [] then []
    else
      var a := list[|list| - 1];
      Expected(list[..|list| - 1]) + if DontCopy in a.flags then [] else [Cleared(a)]
  }

  lemma {:induction false} ExpectedCopies(list: seq<Area>) returns (at: seq<nat>)
    ensures CopiesAt(Expected(list), list, at)
  {
    if list == [] {
      at := [];
    } else {
      var init, a := list[..|list| - 1], list[|list| - 1];
      var at' := ExpectedCopies(init);
      at := at' + if DontCopy in a.flags then [] else [|init|];
      assert forall i :: 0 <= i < |at'| ==> list[at'[i]] == init[at'[i]];
      assert |init| !in at';
      if DontCopy !in a.flags { assert CopyOf(Cleared(a), a); }
      forall j | 0 <= j < |list| ensures j in at <==> DontCopy !in list[j].flags {
        if j < |init| { assert j in at <==> j in at'; }
      }
    }
  }

  ghost function Pages(list: seq<Area>): nat {
    if list == [] then 0 else Pages(list[..|list| - 1]) + list[|list| - 1].pages
  }

  /** Pages of the areas that count against the commit limit. */
  ghost function Accounted(list: seq<Area>): nat {
    if list == [] then 0
    else Accounted(list[..|list| - 1]) + if Account in list[|list| - 1].flags then list[|list| - 1].pages else 0
  }

  ghost function Skipped(list: seq<Area>): nat {
    if list == [] then 0
    else Skipped(list[..|list| - 1]) + if DontCopy in list[|list| - 1].flags then list[|list| - 1].pages else 0
  }

  lemma {:induction false} PagesSplit(list: seq<Area>)
    ensures Pages(list) == Pages(Expected(list)) + Skipped(list)
  {
    if list != [] {
      var init, a := list[..|list| - 1], list[|list| - 1];
      PagesSplit(init);
      if DontCopy in a.flags {
        assert Expected(list) == Expected(init);
      } else {
        assert Expected(list)[..|Expected(list)| - 1] == Expected(init);
      }
    }
  }

  /** What the calls made for one area answer. */
  datatype Env = Env(
    fatalSignal: bool, enoughMemory: bool, copyMade: bool, policyError: int, userfaultError: int,
    anonForked: bool, pageTablesError: int, rotations: seq<Rotation>)

  datatype Startup = Startup(lockKilled: bool, ksmError: int, khugepagedError: int, archError: int)

  /** The area whose next pointer a new area is hung on, if there is one. */
  ghost function Tail(prev: Vma?): set<Vma> {
    if prev == null then {} else {prev}
  }

  lemma TreeGrows(tree: Tree<Vma>, last: Option<Vma>, x: Vma, rotations: seq<Rotation>)
    requires NoDup(InOrder(tree))
    requires last == if InOrder(tree) == [] then None else Some(InOrder(tree)[|InOrder(tree)| - 1])
    ensures InOrder(Rebalance(LinkBehind(tree, last, x), rotations)) == InOrder(tree) + [x]
  {
    if last.Some? { LinkBehindLast(tree, last.value, x); }
    RebalanceKeepsOrder(LinkBehind(tree, last, x), rotations);
  }

  /** Append `tmp` to the list and the tree of `mm`, as lines 607-616 do. */
  method LinkArea(mm: Mm, tmp: Vma, prev: Vma?, rotations: seq<Rotation>)
    requires mm.Valid() && tmp !in mm.areas && tmp.owner == mm && tmp.next == null
    requires prev == mm.Last()
    modifies mm`mmap, mm`tree, mm`mapCount, mm`areas, tmp`prev, Tail(prev)`next
    ensures mm.areas == old(mm.areas) + [tmp] && mm.Valid()
  {
    hide InOrder, LinkBehind, Rebalance;
    if prev == null {
      mm.mmap := tmp;
    } else {
      prev.next := tmp;
    }
    tmp.prev := prev;
    var last := if prev == null then None else Some(prev);
    TreeGrows(mm.tree, last, tmp, rotations);
    mm.tree := Rebalance(LinkBehind(mm.tree, last, tmp), rotations);
    mm.mapCount := mm.mapCount + 1;
    mm.areas := mm.areas + [tmp];
    NoDupSnoc(old(mm.areas), tmp);
  }

  /** Which of the calls for one area fails first, if any does before the copy is linked. */
  predicate Refused(a: Area, e: Env) {
    || e.fatalSignal
    || (Account in a.flags && !e.enoughMemory)
    || !e.copyMade || e.policyError != 0 || e.userfaultError != 0
    || (WipeOnFork !in a.flags && !e.anonForked)
  }

  /**
   * Lines 549-578 and the failure labels 636-643: charge, copy, policy, userfaultfd, anon_vma.
   * Either all are done for the copy `tmp`, or nothing is left of any of them.
   */
  method PrepareArea(k: Kernel, mm: Mm, mpnt: Vma, e: Env) returns (retval: int, tmp: Vma?)
    modifies k`committed, k`policyRefs, k`vmas
    ensures Refused(mpnt.area, e) ==>
      && tmp == null && k.committed == old(k.committed)
      && k.policyRefs == old(k.policyRefs) && k.vmas == old(k.vmas)
      && retval == if e.fatalSignal then -EINTR else -ENOMEM
    ensures !Refused(mpnt.area, e) ==>
      && tmp != null && fresh(tmp) && tmp.area == mpnt.area && tmp.owner == mm && tmp.next == null
      && k.committed == old(k.committed) + (if Account in mpnt.area.flags then mpnt.area.pages else 0)
      && k.policyRefs == old(k.policyRefs) + 1 && k.vmas == old(k.vmas) + {tmp}
      && retval == 0
  {
    retval, tmp := 0, null;
    if e.fatalSignal {
      retval := -EINTR;
      return;
    }
    var charge := 0;
    var failed := 0;              // the label jumped to: 1 fail_nomem, 2 ..._policy, 3 ..._anon_vma_fork
    if Account in mpnt.area.flags {
      if !e.enoughMemory {
        failed := 1;
      } else {
        charge := mpnt.area.pages;
        k.committed := k.committed + charge;
      }
    }
    if failed == 0 {
      if !e.copyMade {
        failed := 1;
      } else {
        tmp := new Vma(mpnt.area, mpnt.owner);
        k.vmas := k.vmas + {tmp};
      }
    }
    if failed == 0 {
      if e.policyError != 0 {
        failed := 2;
      } else {
        k.policyRefs := k.policyRefs + 1;
        tmp.owner := mm;
      }
    }
    if failed == 0 && (e.userfaultError != 0 || (WipeOnFork !in tmp.area.flags && !e.anonForked)) {
      failed := 3;
    }
    if failed > 0 {
      if failed == 3 { k.policyRefs := k.policyRefs - 1; }
      if failed >= 2 { k.vmas := k.vmas - {tmp}; }
      retval, tmp := -ENOMEM, null;
      k.committed := k.committed - charge;
    }
  }

  /** One round of the loop of dup_mmap for an area that is to be copied (lines 544-624). */
  method CopyArea(k: Kernel, mm: Mm, mpnt: Vma, prev: Vma?, e: Env) returns (retval: int, last: Vma?)
    requires mm.Valid() && prev == mm.Last() && mpnt !in mm.areas
    modifies mm`mmap, mm`tree, mm`mapCount, mm`areas, Tail(prev)`next, k`committed, k`policyRefs, k`vmas
    ensures mm.Valid() && last == mm.Last()
    ensures Refused(mpnt.area, e) ==>
      && mm.areas == old(mm.areas) && k.committed == old(k.committed)
      && k.policyRefs == old(k.policyRefs) && k.vmas == old(k.vmas)
      && retval == if e.fatalSignal then -EINTR else -ENOMEM
    ensures !Refused(mpnt.area, e) ==>
      && last != null && fresh(last) && mm.areas == old(mm.areas) + [last]
      && last.area == Cleared(mpnt.area) && CopyOf(last.area, mpnt.area)
      && k.committed == old(k.committed) + (if Account in mpnt.area.flags then mpnt.area.pages else 0)
      && k.policyRefs == old(k.policyRefs) + 1 && k.vmas == old(k.vmas) + {last}
      && retval == if WipeOnFork in mpnt.area.flags then 0 else e.pageTablesError
  {
    hide Mm.Valid, Refused;
    last := prev;
    var tmp;
    retval, tmp := PrepareArea(k, mm, mpnt, e);
    if tmp == null {
      return;
    }
    tmp.area := tmp.area.(flags := tmp.area.flags - {Locked, LockOnFault});
    LinkArea(mm, tmp, prev, e.rotations);
    last := tmp;
    if WipeOnFork !in tmp.area.flags { retval := e.pageTablesError; }
  }

  /** The calls for one area all succeed. */
  predicate AreaDone(a: Area, e: Env) {
    DontCopy in a.flags || (!Refused(a, e) && (WipeOnFork in a.flags || e.pageTablesError == 0))
  }

  lemma ExpectedGrows(list: seq<Area>, i: nat)
    requires i < |list|
    ensures var e, a := Expected(list[..i]), list[i];
            Expected(list[..i + 1]) == if DontCopy in a.flags then e else e + [Cleared(a)]
    ensures Skipped(list[..i + 1]) == Skipped(list[..i]) + if DontCopy in list[i].flags then list[i].pages else 0
  {
    assert list[..i + 1][..i] == list[..i];
  }

  lemma AccountedGrows(list: seq<Area>, a: Area)
    ensures Accounted(list + [a]) == Accounted(list) + if Account in a.flags then a.pages else 0
  {
    assert (list + [a])[..|list|] == list;
  }

  /** What the kernel's counters were before the duplication. */
  datatype Books = Books(committed: int, policyRefs: int, vmas: set<Vma>, mms: set<Mm>)

  ghost function BooksOf(k: Kernel): Books
    reads k
  {
    Books(k.committed, k.policyRefs, k.vmas, k.mms)
  }

  /** Commit charge, policy references and slab exceed `b` by exactly the areas linked into `mm`. */
  ghost predicate PaidFor(k: Kernel, mm: Mm, b: Books)
    reads k, mm`areas, mm.areas`area
  {
    && k.committed == b.committed + Accounted(Snaps(mm.areas))
    && k.policyRefs == b.policyRefs + |mm.areas|
    && k.vmas == b.vmas + Members(mm.areas)
    && k.mms == b.mms
  }

  /** `mm` holds the copies of the first `n` areas of `list`, and they are paid for. */
  ghost predicate Duplicated(k: Kernel, mm: Mm, b: Books, list: seq<Area>, n: nat)
    requires n <= |list|
    reads k, mm`areas, mm`mmap, mm`tree, mm`mapCount, mm.areas
  {
    mm.Valid() && PaidFor(k, mm, b) && Snaps(mm.areas) == Expected(list[..n])
  }

  lemma NothingDuplicated(k: Kernel, mm: Mm, list: seq<Area>)
    requires mm.Valid() && mm.areas == []
    ensures Duplicated(k, mm, BooksOf(k), list, 0)
  {
  }

  lemma AreCopies(mm: Mm, list: seq<Area>)
    requires Snaps(mm.areas) == Expected(list)
    ensures exists at :: CopiesAt(Snaps(mm.areas), list, at)
    ensures forall v :: v in mm.areas ==> Locked !in v.area.flags && LockOnFault !in v.area.flags
  {
    hide Snaps, Expected;
    var at := ExpectedCopies(list);
    forall v | v in mm.areas ensures Locked !in v.area.flags && LockOnFault !in v.area.flags {
      var i :| 0 <= i < |mm.areas| && mm.areas[i] == v;
      assert CopyOf(Snaps(mm.areas)[i], list[at[i]]);
    }
  }

  lemma DuplicatesAreCopies(k: Kernel, mm: Mm, b: Books, list: seq<Area>, n: nat)
    requires n <= |list| && Duplicated(k, mm, b, list, n)
    ensures exists at :: CopiesAt(Snaps(mm.areas), list[..n], at)
    ensures forall v :: v in mm.areas ==> Locked !in v.area.flags && LockOnFault !in v.area.flags
  {
    hide CopiesAt, Snaps, Expected;
    AreCopies(mm, list[..n]);
  }

  lemma AllDuplicated(k: Kernel, mm: Mm, b: Books, list: seq<Area>)
    requires Duplicated(k, mm, b, list, |list|)
    ensures Snaps(mm.areas) == Expected(list)
  {
    assert list[..|list|] == list;
  }

  method CopyOrSkip(k: Kernel, mm: Mm, mpnt: Vma, prev: Vma?, e: Env,
                    ghost b: Books, ghost list: seq<Area>, ghost i: nat)
    returns (retval: int, last: Vma?, ghost n: nat)
    requires i < |list| && mpnt.area == list[i] && mpnt !in mm.areas
    requires Duplicated(k, mm, b, list, i) && prev == mm.Last()
    modifies mm`mmap, mm`tree, mm`mapCount, mm`areas, mm`totalVm, Tail(prev)`next, k`committed, k`policyRefs, k`vmas
    ensures n <= i + 1 && Duplicated(k, mm, b, list, n) && last == mm.Last() && (last != null ==> last in mm.areas)
    ensures forall v :: v in mm.areas ==> v in old(mm.areas) || fresh(v)
    ensures retval == 0 <==> AreaDone(list[i], e)
    ensures retval == 0 ==> n == i + 1
    ensures mm.totalVm == old(mm.totalVm) - if DontCopy in list[i].flags then list[i].pages else 0
  {
    hide Expected, Accounted, Snaps, Mm.Valid, Refused;
    ExpectedGrows(list, i);
    retval, last, n := 0, prev, i + 1;
    if DontCopy in mpnt.area.flags {
      mm.totalVm := mm.totalVm - mpnt.area.pages;
      return;
    }
    ghost var snaps := Snaps(mm.areas);
    AccountedGrows(snaps, Cleared(mpnt.area));
    retval, last := CopyArea(k, mm, mpnt, prev, e);
    if Refused(mpnt.area, e) {
      n := i;
    } else {
      assert Snaps(mm.areas) == snaps + [Cleared(list[i])];
      assert Members(mm.areas) == Members(old(mm.areas)) + {last};
    }
  }

  /** The loop of dup_mmap. */
  method CopyAreas(k: Kernel, mm: Mm, oldmm: Mm, env: nat -> Env, ghost b: Books)
    returns (retval: int, ghost n: nat)
    requires mm != oldmm && oldmm.ListOk() && mm.areas == []
    requires Duplicated(k, mm, b, Snaps(oldmm.areas), 0)
    modifies mm`mmap, mm`tree, mm`mapCount, mm`areas, mm`totalVm, k`committed, k`policyRefs, k`vmas
    ensures forall v :: v in mm.areas ==> fresh(v)
    ensures var list := old(Snaps(oldmm.areas));
      && n <= |list| && Duplicated(k, mm, b, list, n)
      && (exists at :: CopiesAt(Snaps(mm.areas), list[..n], at))
      && (retval == 0 <==> forall i :: 0 <= i < |list| ==> AreaDone(list[i], env(i)))
      && (retval == 0 ==> n == |list| && mm.totalVm == old(mm.totalVm) - Skipped(list))
  {
    hide Duplicated, AreaDone, Snaps, Expected, Mm.ListOk, Skipped, Cleared, CopiesAt;
    oldmm.Follows(0);
    NothingSkipped(Snaps(oldmm.areas));
    ghost var olds, list := oldmm.areas, Snaps(oldmm.areas);
    var prev: Vma? := null;
    var mpnt := oldmm.mmap;
    var i := 0;                   // numbers the rounds, for `env` only
    retval, n := 0, 0;
    while mpnt != null && retval == 0
      invariant 0 <= i <= |olds| && (retval == 0 ==> n == i && mpnt == if i < |olds| then olds[i] else null)
      invariant n <= |list| && Duplicated(k, mm, b, list, n) && prev == mm.Last() && oldmm.ListOk()
      invariant forall v :: v in mm.areas ==> fresh(v)
      invariant prev != null ==> fresh(prev)
      invariant retval == 0 ==> mm.totalVm == old(mm.totalVm) - Skipped(list[..i])
      invariant retval == 0 ==> forall j :: 0 <= j < i ==> AreaDone(list[j], env(j))
      invariant retval != 0 ==> i < |list| && !AreaDone(list[i], env(i))
      decreases |olds| - i, retval == 0
    {
      ExpectedGrows(list, i);
      oldmm.Follows(i);
      retval, prev, n := CopyOrSkip(k, mm, mpnt, prev, env(i), b, list, i);
      if retval == 0 {
        mpnt := mpnt.next;
        i := i + 1;
      }
    }
    DuplicatesAreCopies(k, mm, b, list, n);
  }

  /** Nothing fails on the way. */
  ghost predicate AllDone(list: seq<Area>, start: Startup, env: nat -> Env) {
    && !start.lockKilled && start.ksmError == 0 && start.khugepagedError == 0 && start.archError == 0
    && forall i :: 0 <= i < |list| ==> AreaDone(list[i], env(i))
  }

  method DupMmap(k: Kernel, mm: Mm, oldmm: Mm, start: Startup, env: nat -> Env) returns (retval: int, ghost n: nat)
    requires mm != oldmm && oldmm.ListOk() && mm.Valid() && mm.areas == []
    requires !mm.writeLocked && !oldmm.writeLocked
    modifies mm, oldmm`writeLocked, k`committed, k`policyRefs, k`vmas
    ensures !mm.writeLocked && !oldmm.writeLocked
    ensures forall v :: v in mm.areas ==> fresh(v)
    ensures var list := old(Snaps(oldmm.areas));
      && n <= |list| && Duplicated(k, mm, old(BooksOf(k)), list, n)
      && (exists at :: CopiesAt(Snaps(mm.areas), list[..n], at))
      && (forall v :: v in mm.areas ==> Locked !in v.area.flags && LockOnFault !in v.area.flags)
      && (retval == 0 <==> AllDone(list, start, env)) && (retval == 0 ==> n == |list|)
      && (retval == 0 && oldmm.totalVm == Pages(list) ==> mm.totalVm == Pages(Snaps(mm.areas)))
  {
    hide Duplicated, AreaDone, Expected, Pages, Skipped, Snaps, Mm.Valid, Mm.ListOk, CopiesAt;
    n := 0;
    ghost var list, b := Snaps(oldmm.areas), BooksOf(k);
    NothingDuplicated(k, mm, list);
    if start.lockKilled {
      retval := -EINTR;
      DuplicatesAreCopies(k, mm, b, list, n);
      return;
    }
    oldmm.writeLocked := true;
    mm.writeLocked := true;
    mm.totalVm := oldmm.totalVm;
    retval := start.ksmError;
    if retval == 0 {
      retval := start.khugepagedError;
      if retval == 0 {
        retval, n := CopyAreas(k, mm, oldmm, env, b);
        if retval == 0 {
          retval := start.archError;
          PagesSplit(list);
          AllDuplicated(k, mm, b, list);
        }
      }
    }
    mm.writeLocked := false;
    oldmm.writeLocked := false;
    DuplicatesAreCopies(k, mm, b, list, n);
  }

  lemma SnapsPrefix(vs: seq<Vma>, i: nat)
    requires i < |vs|
    ensures Snaps(vs)[..i + 1] == Snaps(vs)[..i] + [vs[i].area]
  {
    hide Snaps;
  }

  lemma MembersSplit(vs: seq<Vma>, i: nat)
    requires i < |vs| && NoDup(vs)
    ensures Members(vs[i..]) == Members(vs[i + 1..]) + {vs[i]} && vs[i] !in Members(vs[i + 1..])
    ensures vs[i] in Members(vs)
  {
    var rest := vs[i + 1..];
    assert vs[i..] == [vs[i]] + rest;
    forall v | v in rest ensures v != vs[i] {
      var j :| 0 <= j < |rest| && rest[j] == v;
      assert vs[i + 1 + j] == v;
    }
  }

  /** exit_mmap on an address space that no task uses: every area is freed and its charge returned. */
  method ReleaseAreas(k: Kernel, mm: Mm, ghost b: Books)
    requires mm.Valid() && PaidFor(k, mm, b) && Members(mm.areas) !! b.vmas
    modifies k`committed, k`policyRefs, k`vmas
    ensures BooksOf(k) == b
  {
    hide Mm.Valid, Mm.ListOk, Snaps, Accounted;
    ghost var vs := mm.areas;
    assert mm.ListOk() by { mm.ValidList(); }
    mm.Follows(0);
    var vma := mm.mmap;
    var accounted := 0;
    ghost var i := 0;
    assert vs[0..] == vs && Snaps(vs)[..0] == [];
    assert Accounted([]) == 0 by { NothingAccounted(); }
    while vma != null
      invariant 0 <= i <= |vs| && vma == if i < |vs| then vs[i] else null
      invariant mm.ListOk() && NoDup(vs) && Members(vs) !! b.vmas
      invariant accounted == Accounted(Snaps(vs)[..i]) && k.committed == b.committed + Accounted(Snaps(vs))
      invariant k.policyRefs == b.policyRefs + |vs| - i
      invariant k.vmas == b.vmas + Members(vs[i..]) && k.mms == b.mms
      decreases |vs| - i
    {
      SnapsPrefix(vs, i);
      MembersSplit(vs, i);
      AccountedGrows(Snaps(vs)[..i], vs[i].area);
      mm.Follows(i);
      if Account in vma.area.flags { accounted := accounted + vma.area.pages; }
      k.vmas := k.vmas - {vma};
      k.policyRefs := k.policyRefs - 1;
      vma := vma.next;
      i := i + 1;
    }
    assert Snaps(vs)[..i] == Snaps(vs);
    k.committed := k.committed - accounted;
  }

  lemma NothingSkipped(list: seq<Area>)
    ensures Skipped(list[..0]) == 0 && list[..|list|] == list
  {
  }

  lemma NothingAccounted()
    ensures Accounted([]) == 0
  {
  }

  /**
   * dup_mm.  On success the copy is complete, consistent and paid for; on every failure path
   * the kernel's books are as they were.
   */
  method DupMm(k: Kernel, oldmm: Mm, haveMemory: bool, initOk: bool, start: Startup, env: nat -> Env, moduleOk: bool)
    returns (mm: Mm?)
    requires oldmm.ListOk() && !oldmm.writeLocked
    modifies k, oldmm`writeLocked
    ensures !oldmm.writeLocked
    ensures mm != null <==> haveMemory && initOk && moduleOk && AllDone(old(Snaps(oldmm.areas)), start, env)
    ensures mm == null ==> BooksOf(k) == old(BooksOf(k))
    ensures mm != null ==>
      && fresh(mm) && mm.Valid() && !mm.writeLocked
      && Snaps(mm.areas) == Expected(old(Snaps(oldmm.areas)))
      && (exists at :: CopiesAt(Snaps(mm.areas), old(Snaps(oldmm.areas)), at))
      && (forall v :: v in mm.areas ==> Locked !in v.area.flags && LockOnFault !in v.area.flags)
      && PaidFor(k, mm, old(BooksOf(k)).(mms := old(k.mms) + {mm}))
      && (oldmm.totalVm == Pages(old(Snaps(oldmm.areas))) ==> mm.totalVm == Pages(Snaps(mm.areas)))
  {
    hide Mm.Valid, Mm.ListOk, Snaps, Accounted, AllDone, Expected, Pages, CopiesAt;
    mm := null;
    if !haveMemory || !initOk {
      return;
    }
    ghost var list := Snaps(oldmm.areas);
    var copy := new Mm.Empty(oldmm.totalVm);
    k.mms := k.mms + {copy};
    ghost var b := BooksOf(k);
    label built:
    var err, n := DupMmap(k, copy, oldmm, start, env);
    if err == 0 && moduleOk {
      AllDuplicated(k, copy, b, list);
      AreCopies(copy, list);
      return copy;
    }
    ReleaseAreas(k, copy, b);
    k.mms := k.mms - {copy};
  }
}
