/**
 * The vDSO on x86-64: where it is placed above the stack, how [vtask], [vvar] and [vdso] are laid
 * out side by side, and what a read through [vtask] reaches.
 */
module Vdso {

  // PAGE_SIZE is 4096, PMD_SIZE 0x20_0000.
  const DEFAULT_MAP_WINDOW: nat := 0x8000_0000_0000 - 4096

  function Low32(x: nat): nat { x % 0x1_0000_0000 }

  function Low64(x: nat): nat { x % 0x1_0000_0000_0000_0000 }

  // ----- vdso_addr -----

  /** PAGE_ALIGN, in 64-bit arithmetic. */
  function PageAlign64(x: nat): nat {
    var y := Low64(x + 4095);
    y - y % 4096
  }

  /** Rounded up to a PMD boundary, in 64-bit arithmetic. */
  function PmdAlign64(x: nat): nat {
    var y := Low64(x + 0x1F_FFFF);
    y - y % 0x20_0000
  }

  /** The bound the area must stay below: the PMD boundary after start + len, or the map window. */
  function Bound(start: nat, len: nat): nat {
    var end := PmdAlign64(PageAlign64(start) + len);
    if end >= DEFAULT_MAP_WINDOW then DEFAULT_MAP_WINDOW else end
  }

  /** vdso_addr up to align_vdso_addr, with its 64-bit and 32-bit arithmetic; `random` is get_random_int(). */
  function VdsoAddr(start: nat, len: nat, random: nat): nat {
    var start' := PageAlign64(start);
    var end := Low64(Bound(start, len) + 0x1_0000_0000_0000_0000 - Low64(len));
    if end > start' then
      var offset := Low32(random % ((end - start') / 4096 + 1));
      Low64(start' + Low32(offset * 4096))
    else start'
  }

  /** The arguments of a 64-bit call whose sums do not wrap; len is 32 bits wide. */
  predicate NoWrap(start: nat, len: nat) {
    len < 0x1_0000_0000 && start + 4095 + len + 0x1F_FFFF < 0x1_0000_0000_0000_0000
  }

  predicate RandomBranch(start: nat, len: nat) {
    PageAlign64(start) + len < Bound(start, len)
  }

  /** The number of pages by which the area can be moved up. */
  function Slots(start: nat, len: nat): nat
    requires RandomBranch(start, len)
  {
    (Bound(start, len) - len - PageAlign64(start)) / 4096
  }

  function Slot(start: nat, k: nat): nat {
    PageAlign64(start) + k * 4096
  }

  lemma StartRounded(start: nat, len: nat)
    requires NoWrap(start, len)
    ensures PageAlign64(start) % 4096 == 0 && start <= PageAlign64(start) <= start + 4095
  {
  }

  /** The bound is less than one PMD away from the rounded start, so there are at most 511 slots above it. */
  lemma FewSlots(start: nat, len: nat)
    requires NoWrap(start, len)
    ensures len <= Bound(start, len) <= PageAlign64(start) + len + 0x1F_FFFF
    ensures RandomBranch(start, len) ==> Slots(start, len) < 512
  {
    StartRounded(start, len);
  }

  /** The bound is the least PMD boundary at or above the rounded start plus len, or the window when that is below. */
  lemma BoundIsLeast(start: nat, len: nat, m: nat)
    requires NoWrap(start, len) && m % 0x20_0000 == 0 && PageAlign64(start) + len <= m
    ensures Bound(start, len) <= m && Bound(start, len) <= DEFAULT_MAP_WINDOW
    ensures Bound(start, len) < DEFAULT_MAP_WINDOW ==>
      Bound(start, len) % 0x20_0000 == 0 && PageAlign64(start) + len <= Bound(start, len)
    ensures Bound(start, len) == DEFAULT_MAP_WINDOW ==> m >= DEFAULT_MAP_WINDOW
  {
    StartRounded(start, len);
    LeastPmd(PageAlign64(start) + len, m);
  }

  lemma LeastPmd(x: nat, m: nat)
    requires x + 0x1F_FFFF < 0x1_0000_0000_0000_0000 && m % 0x20_0000 == 0 && x <= m
    ensures x <= PmdAlign64(x) <= m && PmdAlign64(x) % 0x20_0000 == 0
  {
  }

  /** end -= len does not wrap. */
  lemma EndIs(start: nat, len: nat)
    requires NoWrap(start, len)
    ensures Low64(Bound(start, len) + 0x1_0000_0000_0000_0000 - Low64(len)) == Bound(start, len) - len
  {
    hide PageAlign64, PmdAlign64;
    FewSlots(start, len);
  }

  lemma ModBelow(random: nat, n: nat)
    requires n > 0
    ensures 0 <= random % n < n
    ensures random < n ==> random % n == random
  {
  }

  /** No 32-bit or 64-bit operation loses a bit: the address is random mod (slots + 1) pages above the rounded start. */
  lemma VdsoAddrIs(start: nat, len: nat, random: nat)
    requires NoWrap(start, len)
    ensures VdsoAddr(start, len, random) ==
      Slot(start, if RandomBranch(start, len) then random % (Slots(start, len) + 1) else 0)
  {
    hide PageAlign64, Bound, Low32, Low64;
    FewSlots(start, len);
    StartRounded(start, len);
    EndIs(start, len);
    if RandomBranch(start, len) {
      var k := random % (Slots(start, len) + 1);
      ModBelow(random, Slots(start, len) + 1);
      SlotFits(start, len, k);
      NothingLost(PageAlign64(start), k);
    }
  }

  lemma NothingLost(s: nat, k: nat)
    requires k < 512 && s + k * 4096 <= DEFAULT_MAP_WINDOW
    ensures Low64(s + Low32(Low32(k) * 4096)) == s + k * 4096
  {
  }

  lemma SlotFits(start: nat, len: nat, k: nat)
    requires NoWrap(start, len) && RandomBranch(start, len) && k <= Slots(start, len)
    ensures k < 512 && Slot(start, k) + len <= Bound(start, len) <= DEFAULT_MAP_WINDOW
    ensures Slot(start, k) % 4096 == 0
  {
    FewSlots(start, len);
    StartRounded(start, len);
    hide PageAlign64, PmdAlign64;
  }

  /**
   * For every start, length and random number: the address is page aligned and not below the rounded
   * start; in the random branch the area ends at or below the PMD bound and the map window.
   */
  lemma Placement(start: nat, len: nat, random: nat)
    requires NoWrap(start, len)
    ensures VdsoAddr(start, len, random) % 4096 == 0
    ensures start <= PageAlign64(start) <= VdsoAddr(start, len, random)
    ensures RandomBranch(start, len) ==> VdsoAddr(start, len, random) + len <= Bound(start, len) <= DEFAULT_MAP_WINDOW
  {
    hide PageAlign64, PmdAlign64, Bound, VdsoAddr;
    VdsoAddrIs(start, len, random);
    StartRounded(start, len);
    if RandomBranch(start, len) {
      ModBelow(random, Slots(start, len) + 1);
      SlotFits(start, len, random % (Slots(start, len) + 1));
    }
  }

  /** The addresses the call can return are exactly the slots. */
  lemma EverySlot(start: nat, len: nat, addr: nat)
    requires NoWrap(start, len) && RandomBranch(start, len)
    ensures (exists random: nat :: random < 0x1_0000_0000 && VdsoAddr(start, len, random) == addr) <==>
            (exists k: nat :: k <= Slots(start, len) && Slot(start, k) == addr)
  {
    hide PageAlign64, PmdAlign64, Bound, VdsoAddr, Slots;
    forall random: nat | random < 0x1_0000_0000 && VdsoAddr(start, len, random) == addr
      ensures exists k: nat :: k <= Slots(start, len) && Slot(start, k) == addr
    {
      VdsoAddrIs(start, len, random);
      ModBelow(random, Slots(start, len) + 1);
      assert Slot(start, random % (Slots(start, len) + 1)) == addr;
    }
    forall k: nat | k <= Slots(start, len) && Slot(start, k) == addr
      ensures exists random: nat :: random < 0x1_0000_0000 && VdsoAddr(start, len, random) == addr
    {
      SlotFits(start, len, k);
      VdsoAddrIs(start, len, k);
      ModBelow(k, Slots(start, len) + 1);
      assert VdsoAddr(start, len, k) == addr;
    }
  }

  // ----- [vtask] -----

  /** ALIGN(size, PAGE_SIZE). */
  function PageAlign(size: nat): nat {
    (size + 4095) / 4096 * 4096
  }

  /** VTASK_SIZE for a task_struct of `size` bytes: one page of header, then whole pages. */
  function VtaskSize(size: nat): nat {
    PageAlign(size) + 4096
  }

  /** What a user address resolves to: the header page with page_offset, a physical byte, or SIGBUS. */
  datatype Byte = Header(pageOffset: nat, at: nat) | Physical(addr: nat) | Sigbus

  /** vtask_fault for the page pgoff of the area, when the task_struct is at physical address pa. */
  function VtaskFault(pgoff: nat, pa: nat, size: nat): Byte {
    if pgoff * 4096 >= VtaskSize(size) then Sigbus
    else if pgoff == 0 then Header(pa % 4096, 0)
    else Physical((pa + pgoff * 4096 - 4096) / 4096 * 4096)
  }

  /** The byte at offset x of the area: the fault handler serves its page. */
  function Resolve(x: nat, pa: nat, size: nat): Byte {
    match VtaskFault(x / 4096, pa, size)
    case Header(off, _) => Header(off, x % 4096)
    case Physical(page) => Physical(page + x % 4096)
    case Sigbus => Sigbus
  }

  /** What is seen page_offset + d bytes after the header page. */
  function SeenAt(d: nat, pa: nat, size: nat): Byte {
    Resolve(4096 + pa % 4096 + d, pa, size)
  }

  /** Byte d of the task is found page_offset + d bytes after the header page, or not at all. */
  lemma TaskByte(pa: nat, size: nat, d: nat)
    ensures SeenAt(d, pa, size) == if pa % 4096 + d < PageAlign(size) then Physical(pa + d) else Sigbus
  {
    var x := 4096 + pa % 4096 + d;
    assert x / 4096 >= 1 && x == x / 4096 * 4096 + x % 4096;
    Beyond(x, size);
    assert (pa + x / 4096 * 4096 - 4096) / 4096 == pa / 4096 + x / 4096 - 1;
  }

  lemma Beyond(x: nat, size: nat)
    ensures x / 4096 * 4096 >= VtaskSize(size) <==> x >= VtaskSize(size)
  {
    var n := (size + 4095) / 4096 + 1;
    assert VtaskSize(size) == n * 4096;
    if x >= n * 4096 { assert x / 4096 >= n; }
  }

  /** All of the task can be read through the area exactly when it does not straddle the last page. */
  lemma WholeTaskVisible(pa: nat, size: nat)
    requires size > 0
    ensures (forall d: nat :: d < size ==> SeenAt(d, pa, size) == Physical(pa + d)) <==>
      pa % 4096 + size <= PageAlign(size)
  {
    hide SeenAt, PageAlign;
    forall d: nat ensures SeenAt(d, pa, size) == if pa % 4096 + d < PageAlign(size) then Physical(pa + d) else Sigbus {
      TaskByte(pa, size, d);
    }
    assert pa % 4096 + size > PageAlign(size) ==> SeenAt(size - 1, pa, size) == Sigbus;
  }

  // ----- The layout and the reader -----

  /** The areas that map_vdso places at addr: [vtask], then [vvar], then the text. */
  datatype Layout = Layout(vtask: nat, vvar: nat, text: nat)

  function LayoutAt(addr: nat, vvarSize: nat, size: nat): Layout {
    Layout(addr, addr + VtaskSize(size), addr + VtaskSize(size) + vvarSize)
  }

  /** get_task_addr: the view is taken to be four pages below vvar_page. */
  function ViewAddr(vvarPage: int): int {
    vvarPage - 4 * 4096
  }

  /**
   * With vvar_page at the start of [vvar], the reader finds the header page exactly when [vtask] is
   * four pages long, that is for a task_struct of more than two and at most three pages.
   */
  lemma ReaderFindsHeader(addr: nat, vvarSize: nat, size: nat)
    ensures ViewAddr(LayoutAt(addr, vvarSize, size).vvar) == addr + PageAlign(size) - 3 * 4096
    ensures ViewAddr(LayoutAt(addr, vvarSize, size).vvar) == addr <==> 2 * 4096 < size <= 3 * 4096
  {
  }

  /** Then the pointer it returns leads to byte d of the task, for every d that the area covers. */
  lemma ReaderFindsTask(addr: nat, vvarSize: nat, size: nat, pa: nat, d: nat)
    requires 2 * 4096 < size <= 3 * 4096 && pa % 4096 + d < 3 * 4096
    ensures var view := ViewAddr(LayoutAt(addr, vvarSize, size).vvar) - addr;
            && view == 0 && Resolve(view, pa, size) == Header(pa % 4096, 0)
            && Resolve(view + Resolve(view, pa, size).pageOffset + 4096 + d, pa, size) == Physical(pa + d)
  {
    ReaderFindsHeader(addr, vvarSize, size);
    TaskByte(pa, size, d);
    assert PageAlign(size) == 3 * 4096;
  }

  /** Whole pages fit into a room exactly when their number does. */
  lemma PagesFit(room: nat, pages: nat)
    ensures pages * 4096 <= room <==> pages <= room / 4096
  {
  }

  lemma VtaskPages(size: nat)
    ensures VtaskSize(size) == VtaskSize(size) / 4096 * 4096 && VtaskSize(size) / 4096 >= 1
  {
    var n := (size + 4095) / 4096 + 1;
    assert VtaskSize(size) == n * 4096;
  }

  /**
   * vdso_addr is asked for room for [vvar] and the text only.  With [vtask] in front, the areas placed
   * at the address it returns stay below the bound exactly when the random number leaves as many slots
   * above it as [vtask] has pages; when there is no slot to choose from they never do.
   */
  lemma VtaskFitsIff(start: nat, len: nat, size: nat, random: nat)
    requires NoWrap(start, len)
    ensures VdsoAddr(start, len, random) + VtaskSize(size) + len <= Bound(start, len) <==>
            RandomBranch(start, len) && random % (Slots(start, len) + 1) + VtaskSize(size) / 4096 <= Slots(start, len)
  {
    hide PageAlign64, PmdAlign64, Bound, VdsoAddr, VtaskSize;
    VdsoAddrIs(start, len, random);
    VtaskPages(size);
    if RandomBranch(start, len) {
      var k := random % (Slots(start, len) + 1);
      PagesFit(Bound(start, len) - len - PageAlign64(start), k + VtaskSize(size) / 4096);
    }
  }

  /** So no start and length are safe: some random number always makes the areas pass the bound. */
  lemma VtaskOverruns(start: nat, len: nat, size: nat)
    requires NoWrap(start, len)
    ensures exists random: nat ::
      random < 0x1_0000_0000 && VdsoAddr(start, len, random) + VtaskSize(size) + len > Bound(start, len)
  {
    hide PageAlign64, PmdAlign64, Bound, VdsoAddr, VtaskSize, Slots;
    VtaskPages(size);
    var random := 0;
    if RandomBranch(start, len) {
      random := Slots(start, len);
      SlotFits(start, len, random);
      ModBelow(random, random + 1);
    }
    VtaskFitsIff(start, len, size, random);
    assert VdsoAddr(start, len, random) + VtaskSize(size) + len > Bound(start, len);
  }

  // ----- map_vdso -----

  datatype Kind = Vtask | Vvar | Text | Other

  /** sizes in pages */
  datatype Image = Image(size: nat, vvarSize: nat)

  predicate Inside(p: nat, start: nat, n: nat) {
    start <= p < start + n
  }

  /** n pages from `start` on. */
  function Span(start: nat, n: nat): set<nat> {
    set p: nat | start <= p < start + n && Inside(p, start, n)
  }

  /** The same, all of one kind. */
  function Area(start: nat, n: nat, kind: Kind): map<nat, Kind> {
    map p: nat | start <= p < start + n && Inside(p, start, n) :: kind
  }

  predicate Free(pages: map<nat, Kind>, start: nat, n: nat) {
    forall p :: p in pages ==> !Inside(p, start, n)
  }

  /** The three areas of the vDSO, in the order they are installed. */
  function Mapped(pages: map<nat, Kind>, addr: nat, vtaskSize: nat, image: Image): map<nat, Kind> {
    var vvar := addr + vtaskSize;
    pages + Area(vvar + image.vvarSize, image.size, Text) + Area(vvar, image.vvarSize, Vvar)
    + Area(addr, vtaskSize, Vtask)
  }

  /** They tile the range without a gap, an overlap or a change elsewhere. */
  lemma AreasTile(pages: map<nat, Kind>, addr: nat, vtaskSize: nat, image: Image, p: nat)
    ensures var all, vvar := Mapped(pages, addr, vtaskSize, image), addr + vtaskSize;
            if Inside(p, addr, vtaskSize + image.vvarSize + image.size)
            then p in all && all[p] == (if p < vvar then Vtask else if p < vvar + image.vvarSize then Vvar else Text)
            else (p in all <==> p in pages) && (p in all ==> all[p] == pages[p])
  {
  }

  lemma FreeParts(pages: map<nat, Kind>, addr: nat, a: nat, b: nat, c: nat, text: Kind, vvar: Kind)
    requires Free(pages, addr, a + b + c)
    ensures Free(pages, addr + a + b, c) && Free(pages, addr + a, b)
    ensures Free(pages + Area(addr + a + b, c, text), addr + a, b)
    ensures Free(pages + Area(addr + a + b, c, text) + Area(addr + a, b, vvar), addr, a)
  {
  }

  lemma Undone(pages: map<nat, Kind>, start: nat, n: nat, kind: Kind)
    requires Free(pages, start, n)
    ensures pages + Area(start, n, kind) - Span(start, n) == pages
  {
  }

  lemma UndoneTwo(pages: map<nat, Kind>, text: nat, n: nat, vvar: nat, m: nat)
    requires Free(pages, text, n) && Free(pages, vvar, m)
    ensures pages + Area(text, n, Text) + Area(vvar, m, Vvar) - Span(text, n) - Span(vvar, m) == pages
  {
  }

  /** An address space: what each mapped page belongs to, and where the vDSO is. */
  class Mm {
    var pages: map<nat, Kind>
    var locked: bool
    var vdso: nat
    var vdsoImage: Image

    constructor (pages: map<nat, Kind>)
      ensures this.pages == pages && !locked
    {
      this.pages, locked, vdso, vdsoImage := pages, false, 0, Image(0, 0);
    }

    /** _install_special_mapping: `ok` says whether it succeeds. */
    method Install(start: nat, n: nat, kind: Kind, ok: bool)
      requires locked && Free(pages, start, n)
      modifies `pages
      ensures pages == if ok then old(pages) + Area(start, n, kind) else old(pages)
    {
      if ok {
        pages := pages + Area(start, n, kind);
      }
    }

    /** do_munmap: whatever is mapped there goes. */
    method Munmap(start: nat, n: nat)
      requires locked
      modifies `pages
      ensures pages == old(pages) - Span(start, n)
    {
      pages := pages - Span(start, n);
    }

    /**
     * map_vdso: `found` and `addr` are what get_unmapped_area came up with, in pages; `ok` says which
     * of the three installations succeed, in order.
     */
    method MapVdso(image: Image, vtaskSize: nat, lockable: bool, addr: nat, found: bool, ok: (bool, bool, bool))
      returns (done: bool)
      requires !locked
      requires found ==> Free(pages, addr, vtaskSize + image.vvarSize + image.size)
      modifies this
      ensures !locked
      ensures done <==> lockable && found && ok.0 && ok.1 && ok.2
      ensures done ==> pages == Mapped(old(pages), addr, vtaskSize, image)
      ensures done ==> vdso == addr + vtaskSize + image.vvarSize && vdsoImage == image
      ensures !done ==> pages == old(pages) && vdso == old(vdso) && vdsoImage == old(vdsoImage)
    {
      hide Free, Area, Span;
      if !lockable {
        return false;
      }
      locked := true;
      done := found;
      if found {
        var vvarStart := addr + vtaskSize;
        var textStart := vvarStart + image.vvarSize;
        ghost var before := pages;
        FreeParts(pages, addr, vtaskSize, image.vvarSize, image.size, Text, Vvar);
        Install(textStart, image.size, Text, ok.0);
        done := ok.0;
        if done {
          Install(vvarStart, image.vvarSize, Vvar, ok.1);
          done := ok.1;
          if !done {
            Munmap(textStart, image.size);
            Undone(before, textStart, image.size, Text);
          } else {
            Install(addr, vtaskSize, Vtask, ok.2);
            done := ok.2;
            if !done {
              Munmap(textStart, image.size);
              Munmap(vvarStart, image.vvarSize);
              UndoneTwo(before, textStart, image.size, vvarStart, image.vvarSize);
            } else {
              vdso, vdsoImage := textStart, image;
            }
          }
        }
      }
      locked := false;
    }
  }
}
