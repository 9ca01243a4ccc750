/** The state the kernel starts from. */
module Start {
  import opened Mmu
  import opened PageTree
  import opened Queue
  import opened Memory
  import opened Sharing
  import opened Machine
  import opened Map

  /** No task has an address space, every page is either free or boot's for good, and the kernel's
      tables are in place. */
  ghost predicate Fresh(s: Sys) {
    && Shape(s) && KernelHalf(s.m, s.c) && TempPte(s.m, s.c) == ZERO
    && (forall t: nat :: t < |s.m.roots| ==> s.m.roots[t] < 0)
    && (forall p: nat :: p < |s.ref| ==> p in s.free || p in s.c.boot)
  }

  lemma {:induction false} NoRootsNoRefs(m: Mem, lo: nat, p: int, leaf: bool)
    requires forall t: nat :: t < |m.roots| ==> m.roots[t] < 0
    ensures Cnt(m, 5, TOP, lo, p, leaf) == 0
    decreases |m.roots| - lo
  {
    if lo < |m.roots| {
      NoRootsNoRefs(m, lo + 1, p, leaf);
    }
  }

  lemma FreshFine(s: Sys)
    requires Fresh(s)
    ensures Fine(s)
  {
    hide Cnt, Ent, KernelTables;
    forall p: int, leaf: bool ensures Cnt(s.m, 5, TOP, 0, p, leaf) == 0 { NoRootsNoRefs(s.m, 0, p, leaf); }
    forall q: Path | InTree(s.m, q) ensures Pte(s.m, q) == ZERO { assert !At(s.m, TOP, q.t).p; }
    forall p: int ensures Refs(s, p) == 0 {}
  }

  /** The numbers from `i` up to the number of slots. */
  function SlotsFrom(i: nat): (r: seq<nat>)
    requires i <= TASK_MAX_CNT
    ensures |r| == TASK_MAX_CNT - i && forall t: nat :: t in r <==> i <= t < TASK_MAX_CNT
    decreases TASK_MAX_CNT - i
  {
    if i == TASK_MAX_CNT then [] else [i] + SlotsFrom(i + 1)
  }

  /** task_init: all slots are free, the first one first. */
  method TaskInit(k: Machine)
    requires k.Valid() && Fresh(k.S()) && k.freeTasks.elems == []
    requires (forall t: nat :: t < TASK_MAX_CNT ==> k.pml4[t] == -1) && k.cr3 == k.img.kroot
    modifies k`state, k`current, k.freeTasks.Repr()
    ensures k.Ok() && k.freeTasks.elems == SlotsFrom(0) && k.S() == old(k.S()) && k.current == -1
    ensures forall t: nat :: t < TASK_MAX_CNT ==> k.state[t] == FREE
    ensures Fresh(k.S())
  {
    hide Fresh, Fine, TempPte, Linked, SlotsOk, SlotsFrom;
    FreshOk(k.S(), k.pml4, k.P());
    SlotsAre(TASK_MAX_CNT);
    var i: int := TASK_MAX_CNT - 1;
    while i >= 0
      invariant -1 <= i < TASK_MAX_CNT && k.Valid() && k.freeTasks.elems == SlotsFrom(i + 1) && k.S() == old(k.S())
      invariant forall t: nat :: i < t < TASK_MAX_CNT ==> k.state[t] == FREE
    {
      SlotsAre(i);
      k.freeTasks.InsertHead(i);
      k.state := k.state[i := FREE];
      i := i - 1;
    }
    k.current := -1;
    AllFree(k.pml4, k.P());
  }

  lemma SlotsAre(i: nat)
    requires i <= TASK_MAX_CNT
    ensures SlotsFrom(i) == if i == TASK_MAX_CNT then [] else [i] + SlotsFrom(i + 1)
    ensures i < TASK_MAX_CNT ==> i !in SlotsFrom(i + 1)
  {
  }

  lemma AllFree(roots: seq<int>, p: Proc)
    requires |roots| == |p.state| == |p.id| == |p.ctx| == TASK_MAX_CNT && p.free == SlotsFrom(0)
    requires forall t: nat :: t < TASK_MAX_CNT ==> p.state[t] == FREE && roots[t] == -1
    ensures SlotsOk(roots, p)
  {
  }

  // ------------------------------------------------------------------------
  // The stacks of interrupt_init

  /** The first free page is the kernel's for good, mapped by entry `y` of the page table that also
      holds the entry for KERNEL_TEMP. */
  function Stacked(s: Sys, y: nat): Sys
    requires |s.free| > 0 && s.free[0] < |s.ref| && s.c.kpt < |s.m.phys| && y < |s.m.phys[s.c.kpt]|
  {
    Sys(SetWord(s.m, s.c.kpt, y, Word(s.free[0], true, true, false, false, 0)), s.ref[s.free[0] := 1], s.free[1..],
        s.c.(boot := s.c.boot + {s.free[0]}))
  }

  lemma StackWalk(s: Sys, m': Mem, q: Path, y: nat, e: Word)
    requires KernelHalf(s.m, s.c) && KernelPath(q) && Wrote(s.m, m', s.c.kpt, y, e)
    ensures forall l: nat :: 1 <= l <= 3 ==> Node(m', 4, s.c.kroot, q, l) == Node(s.m, 4, s.c.kroot, q, l)
    ensures Leaf(m', 4, s.c.kroot, q) == Leaf(s.m, 4, s.c.kroot, q)
            || (Leaf(m', 4, s.c.kroot, q) == e && q.v.i3 == TEMP.i3)
  {
    hide Leaf;
    var R := s.c.kroot;
    NodeStep(s.m, 4, R, q, 3); NodeStep(m', 4, R, q, 3);
    assert Node(m', 4, R, q, 3) == Node(s.m, 4, R, q, 3);
    NodeStep(s.m, 4, R, q, 2); NodeStep(m', 4, R, q, 2);
    assert Node(m', 4, R, q, 2) == Node(s.m, 4, R, q, 2);
    NodeStep(s.m, 4, R, q, 1); NodeStep(m', 4, R, q, 1);
    assert Node(m', 4, R, q, 1) == Node(s.m, 4, R, q, 1);
    if Node(s.m, 4, R, q, 1).Some? {
      NodeLeaf(s.m, 4, R, q);
      NodeLeaf(m', 4, R, q);
    } else {
      NoNodeNoLeaf(s.m, 4, R, q);
      NoNodeNoLeaf(m', 4, R, q);
    }
  }

  /** A stack page mapped by interrupt_init leaves the kernel ready to start. */
  lemma StackFresh(s: Sys, y: nat)
    requires Fresh(s) && |s.free| > 0 && y < TABLE_SIZE && y != TEMP.i1
    ensures s.free[0] < |s.ref| && s.c.kpt < |s.m.phys| && y < |s.m.phys[s.c.kpt]|
    ensures Fresh(Stacked(s, y)) && |Stacked(s, y).free| == |s.free| - 1
  {
    hide Node, Leaf;
    var s', e := Stacked(s, y), Word(s.free[0], true, true, false, false, 0);
    SetWordWrote(s.m, s.c.kpt, y, e);
    forall q: Path | KernelPath(q)
      ensures forall l: nat :: 1 <= l <= 3 ==> Node(s'.m, 4, s.c.kroot, q, l) == Node(s.m, 4, s.c.kroot, q, l)
      ensures Leaf(s'.m, 4, s.c.kroot, q) == Leaf(s.m, 4, s.c.kroot, q)
              || (Leaf(s'.m, 4, s.c.kroot, q) == e && q.v.i3 == TEMP.i3)
    {
      StackWalk(s, s'.m, q, y, e);
    }
    forall t: nat
      ensures Node(s'.m, 4, s.c.kroot, Path(t, TEMP), 1) == Some(s.c.kpt)
    {
      assert KernelPath(Path(t, TEMP));
    }
    forall q: Path, l: nat | KernelPath(q) && 2 <= l <= 4 && Node(s'.m, 4, s.c.kroot, q, l).Some?
      ensures Opens(At(s'.m, Node(s'.m, 4, s.c.kroot, q, l).value, Idx(q, l)))
    {
      WalkLevels(s.m, s.c.kroot, q);
      WalkLevels(s'.m, s.c.kroot, q);
      var T := Node(s.m, 4, s.c.kroot, q, l).value;
      assert l < 4 ==> KernelNode(q, l, T, s.c);
      assert Opens(At(s.m, T, Idx(q, l)));
    }
  }

  /** The tables on the way to KERNEL_TEMP. */
  lemma KernelWay(s: Sys)
    requires Fresh(s)
    ensures s.c.kroot < |s.m.phys| && |s.m.phys[s.c.kroot]| == TABLE_SIZE
    ensures var e4 := At(s.m, s.c.kroot, TEMP.i4); e4.p && e4.ppn < |s.m.phys| && |s.m.phys[e4.ppn]| == TABLE_SIZE
    ensures var e3 := At(s.m, At(s.m, s.c.kroot, TEMP.i4).ppn, TEMP.i3);
            && e3.p && e3.ppn < |s.m.phys| && |s.m.phys[e3.ppn]| == TABLE_SIZE
    ensures var e2 := At(s.m, At(s.m, At(s.m, s.c.kroot, TEMP.i4).ppn, TEMP.i3).ppn, TEMP.i2); e2.p && e2.ppn == s.c.kpt
    ensures s.c.kpt < |s.m.phys| && |s.m.phys[s.c.kpt]| == TABLE_SIZE
  {
    var q, R := Path(0, TEMP), s.c.kroot;
    assert Node(s.m, 4, R, q, 1) == Some(s.c.kpt);
    NodeStep(s.m, 4, R, q, 1);
    NodeStep(s.m, 4, R, q, 2);
    NodeStep(s.m, 4, R, q, 3);
    assert KernelNode(q, 3, Node(s.m, 4, R, q, 3).value, s.c) && KernelNode(q, 2, Node(s.m, 4, R, q, 2).value, s.c);
  }

  /** mmap_lookup from the kernel's PML4 for an address beside KERNEL_TEMP: every table is there. */
  method KernelLookup(k: Machine, va: nat) returns (T: nat)
    requires k.Valid() && Fresh(k.S()) && PageOfAddr(va).(i1 := 0) == TEMP.(i1 := 0)
    ensures T == k.img.kpt && T < |k.phys| && |k.phys[T]| == TABLE_SIZE
  {
    hide Linked, Fresh, PageOfAddr;
    KernelWay(k.S());
    var v := PageOfAddr(va);
    assert v.i4 == TEMP.i4 && v.i3 == TEMP.i3 && v.i2 == TEMP.i2;
    var pdp := k.phys[k.kernelPml4][v.i4].ppn;
    var pd := k.phys[pdp][v.i3].ppn;
    T := k.phys[pd][v.i2].ppn;
  }

  lemma FreshOk(s: Sys, pml4: seq<int>, p: Proc)
    requires Fresh(s)
    ensures Fine(s) && TempPte(s.m, s.c) == ZERO && (|s.free| > 0 ==> s.free[0] < |s.ref| && s.free[0] != 0)
  {
    FreshFine(s);
  }

  /** page_alloc and page_insert of a stack page at `va`, where nothing is mapped. */
  method MapStack(k: Machine, va: nat) returns (ok: bool)
    requires k.Ok() && Fresh(k.S()) && PageOfAddr(va).(i1 := 0) == TEMP.(i1 := 0) && PageOfAddr(va).i1 != TEMP.i1
    requires At(k.S().m, k.img.kpt, PageOfAddr(va).i1) == ZERO
    modifies k`phys, k`ref, k`img, k.free.Repr()
    ensures k.Ok() && Fresh(k.S()) && ok == (|old(k.free.elems)| > 0)
    ensures !ok ==> k.S() == old(k.S())
    ensures ok ==> old(k.free.elems[0]) < |old(k.ref)| && old(k.img.kpt) < |old(k.phys)|
    ensures ok ==> PageOfAddr(va).i1 < |old(k.phys[k.img.kpt])|
    ensures ok ==> k.S() == Stacked(old(k.S()), PageOfAddr(va).i1)
  {
    hide Linked, Fresh, PageOfAddr, Fine, TempPte, SlotsOk;
    ghost var s := k.S();
    FreshOk(s, k.pml4, k.P());
    var T := KernelLookup(k, va);
    var i1 := PageOfAddr(va).i1;
    if |s.free| > 0 { StackFresh(s, i1); }
    var page := PageAlloc(k);
    if page == NULL {
      return false;
    }
    assert k.phys[T][i1] == ZERO;
    k.phys := k.phys[T := k.phys[T][i1 := Word(page, true, true, false, false, 0)]];
    PageIncref(k, page);
    k.img := k.img.(boot := k.img.boot + {page});
    assert k.S() == Stacked(s, i1);
    FreshOk(k.S(), k.pml4, k.P());
    return true;
  }

  const INTERRUPT_STACK_TOP: nat := IOAPIC_BASE

  lemma StackPages()
    ensures PageOfAddr(INTERRUPT_STACK_TOP - 2 * PAGE_SIZE) == TEMP.(i1 := 499)
    ensures PageOfAddr(INTERRUPT_STACK_TOP - PAGE_SIZE) == TEMP.(i1 := 500)
    ensures PageOfAddr(EXCEPTION_STACK_TOP - 2 * PAGE_SIZE) == TEMP.(i1 := 497)
    ensures PageOfAddr(EXCEPTION_STACK_TOP - PAGE_SIZE) == TEMP.(i1 := 498)
  {
    hide PageOfAddr;
    Beside(1);
    Beside(2);
    Beside(3);
    Beside(4);
  }

  lemma Beside(j: nat)
    requires j < 16
    ensures PageOfAddr(KERNEL_TEMP + j * PAGE_SIZE) == TEMP.(i1 := 496 + j)
  {
    var n := (KERNEL_TEMP + j * PAGE_SIZE) / 4096;
    assert n == 0xF_FFFF_FF7F_FFF0 + j;
    assert n / 512 == 0x7FF_FFFF_BFFF && n % 512 == 496 + j;
  }

  /** Nothing is mapped where the stacks go. */
  ghost predicate NoStacks(s: Sys) { forall y: nat :: 497 <= y <= 500 ==> At(s.m, s.c.kpt, y) == ZERO }

  /** The two pages of a stack. */
  method MapTwo(k: Machine, top: nat, ghost y: nat) returns (ok: bool)
    requires k.Ok() && Fresh(k.S()) && y + 1 < TABLE_SIZE && y > TEMP.i1 && top >= 2 * PAGE_SIZE
    requires PageOfAddr(top - 2 * PAGE_SIZE) == TEMP.(i1 := y) && PageOfAddr(top - PAGE_SIZE) == TEMP.(i1 := y + 1)
    requires At(k.S().m, k.img.kpt, y) == ZERO && At(k.S().m, k.img.kpt, y + 1) == ZERO
    modifies k`phys, k`ref, k`img, k.free.Repr()
    ensures k.Ok() && Fresh(k.S()) && ok == (|old(k.free.elems)| >= 2)
    ensures k.img.kpt == old(k.img.kpt) && k.img.kroot == old(k.img.kroot) && old(k.img.boot) <= k.img.boot
    ensures ok ==> k.free.elems == old(k.free.elems)[2..]
    ensures ok ==> Names(At(k.S().m, k.img.kpt, y), old(k.free.elems)[0])
    ensures ok ==> Names(At(k.S().m, k.img.kpt, y + 1), old(k.free.elems)[1])
    ensures ok ==> forall x: nat :: x < y || y + 1 < x ==> At(k.S().m, k.img.kpt, x) == At(old(k.S()).m, k.img.kpt, x)
  {
    hide Linked, Fresh, PageOfAddr, Fine, TempPte, SlotsOk;
    ghost var s := k.S();
    var addr := top - 2 * PAGE_SIZE;
    ok := MapStack(k, addr);
    if !ok { return; }
    addr := addr + PAGE_SIZE;
    ok := MapStack(k, addr);
  }

  /** The stacks of interrupt_init; false stands for the panic when there are not four pages. */
  method InterruptInit(k: Machine) returns (ok: bool)
    requires k.Ok() && Fresh(k.S()) && NoStacks(k.S())
    modifies k`phys, k`ref, k`img, k.free.Repr()
    ensures k.Ok() && Fresh(k.S()) && ok == (|old(k.free.elems)| >= 4)
    ensures k.img.kpt == old(k.img.kpt) && k.img.kroot == old(k.img.kroot) && old(k.img.boot) <= k.img.boot
    ensures ok ==> k.free.elems == old(k.free.elems)[4..]
    ensures ok ==> Names(At(k.S().m, k.img.kpt, 499), old(k.free.elems)[0])
    ensures ok ==> Names(At(k.S().m, k.img.kpt, 500), old(k.free.elems)[1])
    ensures ok ==> Names(At(k.S().m, k.img.kpt, 497), old(k.free.elems)[2])
    ensures ok ==> Names(At(k.S().m, k.img.kpt, 498), old(k.free.elems)[3])
    ensures ok ==> forall x: nat :: x < 497 || 500 < x ==> At(k.S().m, k.img.kpt, x) == At(old(k.S()).m, k.img.kpt, x)
  {
    hide Linked, Fresh, PageOfAddr, Fine, TempPte, SlotsOk;
    StackPages();
    ok := MapTwo(k, INTERRUPT_STACK_TOP, 499);
    if !ok { return; }
    ok := MapTwo(k, EXCEPTION_STACK_TOP, 497);
  }

  // ------------------------------------------------------------------------
  // The smallest kernel

  function Named(p: nat): Word { Word(p, true, true, true, false, 0) }

  /** The page table of the direct mapping of `n` pages. */
  function DirectTable(n: nat): (r: seq<Word>)
    ensures |r| == TABLE_SIZE
    ensures forall i :: 0 <= i < TABLE_SIZE ==> r[i] == if i < n then Word(i, true, true, false, false, 0) else ZERO
  {
    seq(TABLE_SIZE, i => if 0 <= i < n then Word(i, true, true, false, false, 0) else ZERO)
  }

  /** The pages of BIOS data and of the six tables on the way to KERNEL_TEMP and to the direct mapping
      of `n` pages. */
  function SmallPage(p: nat, n: nat): (r: seq<Word>)
    ensures |r| == TABLE_SIZE
  {
    if p == 1 then Zeros()[511 := Named(2)]
    else if p == 2 then Zeros()[479 := Named(3)][480 := Named(5)]
    else if p == 3 then Zeros()[511 := Named(4)]
    else if p == 5 then Zeros()[0 := Named(6)]
    else if p == 6 then DirectTable(n)
    else Zeros()
  }

  /** The smallest kernel with `free` free pages, the last ones of memory. */
  function SmallKernel(free: nat): Sys {
    var n := 7 + free;
    Sys(Mem(seq(n, p requires 0 <= p < n => SmallPage(p, n)), seq(TASK_MAX_CNT, _ => -1), USER_SLOTS),
        seq(n, _ => 1), seq(free, i requires 0 <= i < free => 7 + i), Image({0, 1, 2, 3, 4, 5, 6}, 1, 4))
  }

  lemma SmallWalk(free: nat, q: Path)
    requires free <= 500
    ensures var m := SmallKernel(free).m;
            && Node(m, 4, 1, q, 3) == (if q.v.i4 == 511 then Some(2) else None)
            && Node(m, 4, 1, q, 2) ==
               (if q.v.i4 != 511 then None
                else if q.v.i3 == 479 then Some(3)
                else if q.v.i3 == 480 then Some(5)
                else None)
            && Node(m, 4, 1, q, 1) ==
               (if q.v.i4 != 511 then None
                else if q.v.i3 == 479 && q.v.i2 == 511 then Some(4)
                else if q.v.i3 == 480 && q.v.i2 == 0 then Some(6)
                else None)
            && Leaf(m, 4, 1, q) ==
               (if Direct(q.v, 7 + free) then Word(Physical(q.v), true, true, false, false, 0) else ZERO)
  {
    var m := SmallKernel(free).m;
    NodeStep(m, 4, 1, q, 3);
    NodeStep(m, 4, 1, q, 2);
    NodeStep(m, 4, 1, q, 1);
    if Node(m, 4, 1, q, 1).Some? { NodeLeaf(m, 4, 1, q); } else { NoNodeNoLeaf(m, 4, 1, q); }
  }

  /** The invariant can be met, with any number of free pages. */
  lemma SmallKernelFresh(free: nat)
    requires free <= 500
    ensures Fresh(SmallKernel(free)) && Fine(SmallKernel(free))
  {
    hide Node, Leaf, Direct, Physical;
    var s := SmallKernel(free);
    forall q: Path
      ensures forall l: nat :: 1 <= l <= 3 && KernelPath(q) && Node(s.m, 4, 1, q, l).Some? ==>
                KernelNode(q, l, Node(s.m, 4, 1, q, l).value, s.c)
      ensures KernelEntry(q.v, Leaf(s.m, 4, 1, q), 7 + free, s.c) && (q.v == TEMP ==> Node(s.m, 4, 1, q, 1) == Some(4))
    {
      SmallWalk(free, q);
    }
    forall p: nat | 7 <= p < 7 + free ensures p in s.free { assert s.free[p - 7] == p; }
    assert At(s.m, 1, USER_SLOTS - 1) == ZERO && TempPte(s.m, s.c) == ZERO;
    FreshFine(s);
  }
}
