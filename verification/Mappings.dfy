/** The counts of the page tree against the plain set of virtual pages that map a page. */
module Mappings {
  import opened Mmu
  import opened PageTree
  import opened Memory
  import opened Sharing
  import opened Machine
  import opened Scheduling

  function Go(q: Path, lvl: nat, x: nat): Path
    requires 1 <= lvl <= 5 && (lvl < 5 ==> x < TABLE_SIZE)
  {
    if lvl == 5 then q.(t := x) else Path(q.t, SetIdx(q.v, lvl, x))
  }

  /** The paths through entries `lo..` of `R` that end in an entry naming `p`; `q` gives the
      indices above. */
  ghost function Spots(m: Mem, lvl: nat, R: int, lo: nat, q: Path, p: int): set<Path>
    requires lvl <= 5 && m.width <= TABLE_SIZE
    decreases lvl, Width(m, lvl) - lo + 1
  {
    if lvl == 0 || lo >= Width(m, lvl) then {}
    else SpotsBelow(m, lvl, At(m, R, lo), Go(q, lvl, lo), p) + Spots(m, lvl, R, lo + 1, q, p)
  }

  ghost function SpotsBelow(m: Mem, lvl: nat, e: Word, q: Path, p: int): set<Path>
    requires 1 <= lvl <= 5 && m.width <= TABLE_SIZE
    decreases lvl, 0
  {
    if !e.p then {} else if lvl == 1 then (if e.ppn == p then {q} else {}) else Spots(m, lvl - 1, e.ppn, 0, q, p)
  }

  /** `r` goes through the same entries as `q` above level `lvl` and stays inside the tree below. */
  predicate Continues(m: Mem, lvl: nat, q: Path, r: Path) {
    && (forall i: nat :: lvl < i <= 5 ==> Idx(r, i) == Idx(q, i))
    && (forall i: nat :: 1 <= i <= lvl ==> Idx(r, i) < Width(m, i))
  }

  lemma {:induction false} SpotsWhere(m: Mem, lvl: nat, R: int, lo: nat, q: Path, p: int, r: Path)
    requires lvl <= 5 && m.width <= TABLE_SIZE && r in Spots(m, lvl, R, lo, q, p)
    ensures lvl >= 1 && Continues(m, lvl, q, r) && Idx(r, lvl) >= lo
    decreases lvl, Width(m, lvl) - lo + 1
  {
    if r in SpotsBelow(m, lvl, At(m, R, lo), Go(q, lvl, lo), p) {
      SpotsBelowWhere(m, lvl, R, lo, q, p, r);
    } else {
      SpotsWhere(m, lvl, R, lo + 1, q, p, r);
    }
  }

  lemma {:induction false} SpotsBelowWhere(m: Mem, lvl: nat, R: int, lo: nat, q: Path, p: int, r: Path)
    requires 1 <= lvl <= 5 && m.width <= TABLE_SIZE && lo < Width(m, lvl)
    requires r in SpotsBelow(m, lvl, At(m, R, lo), Go(q, lvl, lo), p)
    ensures Continues(m, lvl, q, r) && Idx(r, lvl) == lo
    decreases lvl, 0
  {
    if lvl > 1 {
      SpotsWhere(m, lvl - 1, At(m, R, lo).ppn, 0, Go(q, lvl, lo), p, r);
    }
  }

  /** The count is the number of paths. */
  lemma {:induction false} SpotsSize(m: Mem, lvl: nat, R: int, lo: nat, q: Path, p: int)
    requires lvl <= 5 && m.width <= TABLE_SIZE
    ensures |Spots(m, lvl, R, lo, q, p)| == Cnt(m, lvl, R, lo, p, true)
    decreases lvl, Width(m, lvl) - lo + 1
  {
    if lvl > 0 && lo < Width(m, lvl) {
      var e := At(m, R, lo);
      var A, B := SpotsBelow(m, lvl, e, Go(q, lvl, lo), p), Spots(m, lvl, R, lo + 1, q, p);
      SpotsSize(m, lvl, R, lo + 1, q, p);
      if e.p && lvl > 1 {
        SpotsSize(m, lvl - 1, e.ppn, 0, Go(q, lvl, lo), p);
      }
      forall r | r in A && r in B ensures false {
        SpotsBelowWhere(m, lvl, R, lo, q, p, r);
        SpotsWhere(m, lvl, R, lo + 1, q, p, r);
      }
      assert A * B == {};
    }
  }

  /** Every path inside the tree that ends in an entry naming `p` is there. */
  lemma {:induction false} SpotsComplete(m: Mem, lvl: nat, R: int, lo: nat, q: Path, p: int, r: Path)
    requires 1 <= lvl <= 5 && m.width <= TABLE_SIZE && Continues(m, lvl, q, r) && lo <= Idx(r, lvl)
    requires Leaf(m, lvl, R, r).p && Leaf(m, lvl, R, r).ppn == p
    ensures r in Spots(m, lvl, R, lo, q, p)
    decreases lvl, Width(m, lvl) - lo + 1
  {
    if lo < Idx(r, lvl) {
      SpotsComplete(m, lvl, R, lo + 1, q, p, r);
    } else if lvl == 1 {
      assert Idx(r, 5) == Idx(q, 5) && Idx(r, 4) == Idx(q, 4) && Idx(r, 3) == Idx(q, 3) && Idx(r, 2) == Idx(q, 2)
          && Idx(r, 1) == lo;
      assert r == Go(q, 1, lo);
    } else {
      assert Continues(m, lvl - 1, Go(q, lvl, lo), r);
      SpotsComplete(m, lvl - 1, At(m, R, lo).ppn, 0, Go(q, lvl, lo), p, r);
    }
  }

  lemma {:induction false} SpotsSound(m: Mem, lvl: nat, R: int, lo: nat, q: Path, p: int, r: Path)
    requires lvl <= 5 && m.width <= TABLE_SIZE && r in Spots(m, lvl, R, lo, q, p)
    ensures Leaf(m, lvl, R, r).p && Leaf(m, lvl, R, r).ppn == p
    decreases lvl, Width(m, lvl) - lo + 1
  {
    if r in SpotsBelow(m, lvl, At(m, R, lo), Go(q, lvl, lo), p) {
      SpotsBelowWhere(m, lvl, R, lo, q, p, r);
      if lvl > 1 {
        SpotsSound(m, lvl - 1, At(m, R, lo).ppn, 0, Go(q, lvl, lo), p, r);
      }
    } else {
      SpotsSound(m, lvl, R, lo + 1, q, p, r);
    }
  }

  /** The virtual pages, of any task, mapped to page `p`. */
  ghost function MappingsOf(m: Mem, p: int): set<Path>
    requires m.width <= TABLE_SIZE
  {
    Spots(m, 5, TOP, 0, Path(0, Vpage(0, 0, 0, 0)), p)
  }

  lemma MappingsAre(m: Mem, p: int, q: Path)
    requires m.width <= TABLE_SIZE
    ensures q in MappingsOf(m, p) <==> InTree(m, q) && Pte(m, q).p && Pte(m, q).ppn == p
    ensures |MappingsOf(m, p)| == Maps(m, p)
  {
    var z := Path(0, Vpage(0, 0, 0, 0));
    SpotsSize(m, 5, TOP, 0, z, p);
    if q in MappingsOf(m, p) {
      SpotsWhere(m, 5, TOP, 0, z, p, q);
      SpotsSound(m, 5, TOP, 0, z, p, q);
    }
    if InTree(m, q) && Pte(m, q).p && Pte(m, q).ppn == p {
      assert Continues(m, 5, z, q);
      SpotsComplete(m, 5, TOP, 0, z, p, q);
    }
  }

  /** In every state in which task code runs: the reference count of an allocated page that is no
      table is the number of virtual pages mapped to it; a table has count 1 and is mapped nowhere. */
  lemma RefIsMappings(s: Sys, p: int)
    requires Inv(s) && TempPte(s.m, s.c) == ZERO && InUse(s, p)
    ensures if Tables(s.m, p) == 0 then s.ref[p] == |MappingsOf(s.m, p)| else s.ref[p] == 1 && MappingsOf(s.m, p) == {}
  {
    hide Cnt, Ent, KernelHalf, Forest;
    MappingsAre(s.m, p, Path(0, Vpage(0, 0, 0, 0)));
    if Tables(s.m, p) > 0 { assert Refs(s, p) == 1; }
  }

  /** Writable means sole owner: no other virtual page of any task maps the page, and its count is 1. */
  lemma WritableIsSole(s: Sys, q: Path)
    requires Fine(s) && TempPte(s.m, s.c) == ZERO && InTree(s.m, q) && Pte(s.m, q).p && Pte(s.m, q).w
    ensures var p := Pte(s.m, q).ppn; InUse(s, p) && s.ref[p] == 1 && MappingsOf(s.m, p) == {q}
  {
    hide Cnt, Ent, KernelHalf, Forest, Leaf;
    var p := Pte(s.m, q).ppn;
    PteTarget(s, q);
    RefIsMappings(s, p);
    MappingsAre(s.m, p, q);
    var A := MappingsOf(s.m, p);
    assert |A - {q}| == 0;
    assert A == {q} + (A - {q});
  }

  /** A page on the free list is named by no page table entry outside the direct mapping, private or
      of the kernel's half, by no upper entry, by no task, and not by CR3, which is always the kernel's
      PML4 or that of a task. */
  lemma FreeUnnamed(s: Sys, cpu: Proc, p: nat)
    requires Inv(s) && p in s.free
    ensures Running(s.m.roots, cpu) ==> cpu.cr3 != p
    ensures forall t: nat :: Entered(s.m.roots, cpu, t) ==> cpu.cr3 != p
    ensures InSpace(s.m.roots, cpu.cr3, s.c.kroot) ==> cpu.cr3 != p
    ensures forall q: Path :: InTree(s.m, q) ==> !Names(Pte(s.m, q), p)
    ensures forall q: Path, l: nat :: InTree(s.m, q) && 1 <= l <= 4 && Node(s.m, 5, TOP, q, l).Some? ==>
              Node(s.m, 5, TOP, q, l).value != p
    ensures forall q: Path, l: nat :: KernelPath(q) && 1 <= l <= 4 && Node(s.m, 4, s.c.kroot, q, l).Some? ==>
              Node(s.m, 4, s.c.kroot, q, l).value != p
    ensures forall q: Path :: KernelPath(q) && !Direct(q.v, |s.m.phys|) ==> !Names(Leaf(s.m, 4, s.c.kroot, q), p)
    ensures forall t: nat :: t < |s.m.roots| ==> s.m.roots[t] != p
  {
    hide Cnt, Leaf, Node;
    assert Refs(s, p) == 0;
    forall q: Path | InTree(s.m, q) ensures !Names(Pte(s.m, q), p) {
      if Pte(s.m, q).p { LeafMaps(s.m, q); }
    }
    forall q: Path, l: nat | InTree(s.m, q) && 1 <= l <= 4 && Node(s.m, 5, TOP, q, l).Some?
      ensures Node(s.m, 5, TOP, q, l).value != p
    {
      NodeIsTable(s.m, q, l);
    }
    forall q: Path, l: nat | KernelPath(q) && 1 <= l <= 4 && Node(s.m, 4, s.c.kroot, q, l).Some?
      ensures Node(s.m, 4, s.c.kroot, q, l).value != p
    {
      if l == 4 { WalkLevels(s.m, s.c.kroot, q); }
    }
    forall q: Path | KernelPath(q) && !Direct(q.v, |s.m.phys|) ensures !Names(Leaf(s.m, 4, s.c.kroot, q), p) {
      if q.v == TEMP { NodeLeaf(s.m, 4, s.c.kroot, q); }
    }
    forall t: nat | t < |s.m.roots| ensures s.m.roots[t] != p {
      if s.m.roots[t] >= 0 { RootIsTable(s.m, t); }
    }
  }

  /** The direct mapping, through which the kernel reaches every page and every table, is intact in
      the address space of every task, and the processor lets the kernel write through it. */
  lemma DirectIntact(s: Sys, t: nat, v: Vpage)
    requires Inv(s) && t < |s.m.roots| && s.m.roots[t] >= 0 && Direct(v, |s.m.phys|)
    ensures Names(Leaf(s.m, 4, s.m.roots[t], Path(t, v)), Physical(v))
    ensures KernelMay(s.m, 4, s.m.roots[t], Path(t, v))
  {
    hide Cnt, Exact, Forest;
    var q, r, K := Path(t, v), s.m.roots[t], s.c.kroot;
    assert At(s.m, r, v.i4) == At(s.m, K, v.i4);
    assert Leaf(s.m, 4, r, q) == Leaf(s.m, 4, K, q);
    assert KernelEntry(v, Leaf(s.m, 4, K, q), |s.m.phys|, s.c);
    KernelOpen(s.m, s.c, q);
    assert KernelMay(s.m, 4, r, q) <==> KernelMay(s.m, 4, K, q);
  }

  /** A present entry of the kernel's half can be written through. */
  lemma KernelOpen(m: Mem, c: Image, q: Path)
    requires KernelHalf(m, c) && KernelPath(q) && q.v != TEMP && Leaf(m, 4, c.kroot, q).p
    ensures KernelMay(m, 4, c.kroot, q)
  {
    hide Node, KernelNode;
    var R := c.kroot;
    if Node(m, 4, R, q, 1).None? { NoNodeNoLeaf(m, 4, R, q); }
    NodeLeaf(m, 4, R, q);
    NodeStep(m, 4, R, q, 1);
    NodeStep(m, 4, R, q, 2);
    NodeStep(m, 4, R, q, 3);
    WalkLevels(m, R, q);
    var T3, T2, T1 := Node(m, 4, R, q, 3).value, Node(m, 4, R, q, 2).value, Node(m, 4, R, q, 1).value;
    assert Opens(At(m, R, Idx(q, 4))) && Opens(At(m, T3, Idx(q, 3))) && Opens(At(m, T2, Idx(q, 2)));
    assert Opens(Leaf(m, 4, R, q)) by { assert KernelEntry(q.v, Leaf(m, 4, R, q), |m.phys|, c); }
    assert KernelMay(m, 0, At(m, T1, Idx(q, 1)).ppn, q);
    assert KernelMay(m, 1, T1, q);
    assert KernelMay(m, 2, T2, q);
    assert KernelMay(m, 3, T3, q);
  }

  lemma LeafMaps(m: Mem, q: Path)
    requires InTree(m, q) && Pte(m, q).p
    ensures Maps(m, Pte(m, q).ppn) >= 1
  {
    LeafCounted(m, 5, TOP, q);
    EntInCnt(m, 5, TOP, 0, q.t, Pte(m, q).ppn, true);
  }

  // ------------------------------------------------------------------------
  // Reference counts fit in 32 bits

  /** The references to the pages below `n` made by upper entries. */
  ghost function Total(m: Mem, lvl: nat, R: int, lo: nat, n: nat): nat {
    if n == 0 then 0 else Total(m, lvl, R, lo, n - 1) + Cnt(m, lvl, R, lo, n - 1, false)
  }

  ghost function TotalBelow(m: Mem, lvl: nat, e: Word, n: nat): nat
    requires lvl >= 1
  {
    if n == 0 then 0 else TotalBelow(m, lvl, e, n - 1) + Ent(m, lvl, e, n - 1, false)
  }

  lemma {:induction false} TotalStep(m: Mem, lvl: nat, R: int, lo: nat, n: nat)
    requires lvl > 0 && lo < Width(m, lvl)
    ensures Total(m, lvl, R, lo, n) == TotalBelow(m, lvl, At(m, R, lo), n) + Total(m, lvl, R, lo + 1, n)
  {
    if n > 0 {
      TotalStep(m, lvl, R, lo, n - 1);
      CntStep(m, lvl, R, lo, n - 1, false);
    }
  }

  lemma {:induction false} TotalEnter(m: Mem, lvl: nat, e: Word, n: nat)
    requires lvl >= 2 && e.p
    ensures TotalBelow(m, lvl, e, n) == Total(m, lvl - 1, e.ppn, 0, n) + if e.ppn < n then 1 else 0
  {
    if n > 0 {
      TotalEnter(m, lvl, e, n - 1);
      EntStep(m, lvl, e, n - 1, false);
    }
  }

  /** A page table makes at most one reference for each of its entries. */
  lemma {:induction false} TableCount(m: Mem, R: int, lo: nat, p: int)
    requires lo <= TABLE_SIZE
    ensures Cnt(m, 1, R, lo, p, true) <= TABLE_SIZE - lo
    decreases TABLE_SIZE - lo
  {
    if lo < TABLE_SIZE {
      TableCount(m, R, lo + 1, p);
      EntLeaf(m, At(m, R, lo), p, true);
    }
  }

  /** Every page table below `R` is a page below `n`. */
  ghost predicate TablesBelow(m: Mem, lvl: nat, R: int, lo: nat, n: nat) {
    forall p: int :: Cnt(m, lvl, R, lo, p, false) > 0 ==> 0 <= p < n
  }

  lemma {:induction false} LeavesBound(m: Mem, lvl: nat, R: int, lo: nat, n: nat, p: int)
    requires 2 <= lvl <= 5 && TablesBelow(m, lvl, R, lo, n)
    ensures Cnt(m, lvl, R, lo, p, true) <= TABLE_SIZE * Total(m, lvl, R, lo, n)
    decreases lvl, Width(m, lvl) - lo + 1
  {
    hide Cnt, Ent;
    if lo < Width(m, lvl) {
      var e, next := At(m, R, lo), lo + 1;
      CntStep(m, lvl, R, lo, p, true);
      TotalStep(m, lvl, R, lo, n);
      forall d: int ensures Cnt(m, lvl, R, lo, d, false) == Ent(m, lvl, e, d, false) + Cnt(m, lvl, R, next, d, false) {
        CntStep(m, lvl, R, lo, d, false);
      }
      LeavesBound(m, lvl, R, lo + 1, n, p);
      EntryBound(m, lvl, e, n, p);
    } else {
      NoEntries(m, lvl, R, lo, p);
    }
  }

  lemma NoEntries(m: Mem, lvl: nat, R: int, lo: nat, p: int)
    requires lo >= Width(m, lvl)
    ensures Cnt(m, lvl, R, lo, p, true) == 0
  {
  }

  lemma {:induction false} EntryBound(m: Mem, lvl: nat, e: Word, n: nat, p: int)
    requires 2 <= lvl <= 5 && forall d: int :: Ent(m, lvl, e, d, false) > 0 ==> 0 <= d < n
    ensures Ent(m, lvl, e, p, true) <= TABLE_SIZE * TotalBelow(m, lvl, e, n)
    decreases lvl, 0
  {
    hide Cnt;
    if e.p {
      var k := lvl - 1;
      EntStep(m, lvl, e, p, true);
      TotalEnter(m, lvl, e, n);
      forall d: int ensures Ent(m, lvl, e, d, false) == Hit(lvl, e, d, false) + Cnt(m, k, e.ppn, 0, d, false) {
        EntStep(m, lvl, e, d, false);
      }
      assert Ent(m, lvl, e, e.ppn, false) > 0;
      if lvl == 2 {
        TableCount(m, e.ppn, 0, p);
      } else {
        LeavesBound(m, lvl - 1, e.ppn, 0, n, p);
      }
    }
  }

  lemma {:induction false} TotalBound(m: Mem, n: nat)
    requires Once(m, 5, TOP, 0)
    ensures Total(m, 5, TOP, 0, n) <= n && (n > 0 && Tables(m, 0) == 0 ==> Total(m, 5, TOP, 0, n) <= n - 1)
  {
    if n > 0 {
      TotalBound(m, n - 1);
      assert Cnt(m, 5, TOP, 0, n - 1, false) <= 1;
    }
  }

  /** In up to 32 GB of memory, as much as the kernel can map, no 32-bit reference count overflows:
      there are not enough page tables for so many references. */
  lemma RefFits(s: Sys, p: int)
    requires Inv(s) && |s.ref| <= 0x80_0000 && InUse(s, p)
    ensures s.ref[p] < 0x1_0000_0000
  {
    hide Cnt, Ent, Once, KernelHalf, Tables;
    var n := |s.ref|;
    assert TablesBelow(s.m, 5, TOP, 0, n) by {
      forall d: int ensures Cnt(s.m, 5, TOP, 0, d, false) == Tables(s.m, d) { TablesIs(s.m, d); }
    }
    LeavesBound(s.m, 5, TOP, 0, n, p);
    assert Tables(s.m, 0) == 0;
    TotalBound(s.m, n);
  }

  lemma TablesIs(m: Mem, p: int)
    ensures Tables(m, p) == Cnt(m, 5, TOP, 0, p, false)
  {
  }
}
