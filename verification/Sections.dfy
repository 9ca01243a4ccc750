/** loader_map_section and loader_init_memory of src/kernel/loader/loader.c. */
module Sections {
  import opened Mmu
  import opened PageTree
  import opened Queue
  import opened Memory
  import opened Growth
  import opened Loader
  import opened Stock

  /** The number, modulo 2^36, of the virtual page at address `va`. */
  function First(va: nat): nat { va / PAGE_SIZE % LIMIT }

  /** The page table sees the low 36 bits of a page number. */
  lemma NthWraps(a: nat, b: nat)
    ensures Nth(b + a * LIMIT) == Nth(b)
  {
    var n := b + a * LIMIT;
    assert n / 512 == b / 512 + a * 0x800_0000;
    assert n / 512 / 512 == b / 512 / 512 + a * 0x4_0000;
    assert n / 512 / 512 / 512 == b / 512 / 512 / 512 + a * 0x200;
  }

  lemma SectionPage(va: nat, i: nat)
    ensures PageOfAddr(RoundDown(va) + i * PAGE_SIZE) == Nth(First(va) + i)
  {
    var n := va / PAGE_SIZE;
    assert (n * PAGE_SIZE + i * PAGE_SIZE) / 4096 == n + i;
    assert n == First(va) + n / LIMIT * LIMIT;
    NthWraps(n / LIMIT, First(va) + i);
  }

  lemma SectionFrame(pa: nat, i: nat)
    ensures (pa + i * PAGE_SIZE) / PAGE_SIZE == pa / PAGE_SIZE + i
  {
  }

  /** A section that starts at a page translates every one of its bytes to the frame it should. */
  lemma SectionBytes(m: Mem, m': Mem, va: nat, pa: nat, len: nat, a: nat)
    requires Section(m, m', First(va), pa / PAGE_SIZE, Count(len)) && First(va) + Count(len) <= LIMIT
    requires va % PAGE_SIZE == 0 && pa % PAGE_SIZE == 0 && va <= a < va + len
    ensures Names(Pte(m', PathOf(0, a)), (pa + (a - va)) / PAGE_SIZE)
  {
    hide Nth, Pte, Count;
    var i := a / PAGE_SIZE - va / PAGE_SIZE;
    assert (pa + (a - va)) / PAGE_SIZE == pa / PAGE_SIZE + i;
    CountIs(len, i);
    SectionPage(va, i);
    SamePage(RoundDown(va) + i * PAGE_SIZE, a);
    assert Entry(m', First(va) + i) == Frame(pa / PAGE_SIZE + i);
  }

  /** How loader_map_section ends: a table page from 4 GB up is not followed any further. */
  datatype Status = Done | NoPages | Astray

  /** One round of loader_map_section. */
  ghost predicate PageMapped(x: Load, y: Load, n: nat, p: nat, hard: bool) {
    && Sound(y, Most(hard)) && Onward(x, y) && Section(x.m, y.m, n, p, 1)
    && RootKept(x, y, Nth(n).i4) && At(y.m, x.m.roots[0], Nth(n).i4).p
    && p < |y.ref| && y.ref[p] == 1 && (hard ==> p !in y.free)
  }

  ghost predicate PageFailed(x: Load, y: Load, n: nat, hard: bool) {
    Sound(y, Most(hard)) && Onward(x, y) && RootKept(x, y, Nth(n).i4) && Section(x.m, y.m, 0, 0, 0) && y.free == []
  }

  lemma ExtendsSection(x: Load, y: Load, hard: bool)
    requires Sound(x, Most(hard)) && Extends(x, y, Most(hard))
    ensures Section(x.m, y.m, 0, 0, 0)
  {
    hide Cnt, Leaf, Node, Nth;
    forall i: nat | i < LIMIT ensures Entry(y.m, i) == Entry(x.m, i) {
      assert InTree(x.m, Path(0, Nth(i)));
    }
  }

  lemma MappedAfter(x: Load, y: Load, z: Load, n: nat, p: nat, hard: bool)
    requires Onward(x, y) && RootKept(x, y, Nth(n).i4) && Section(x.m, y.m, 0, 0, 0)
    requires At(y.m, x.m.roots[0], Nth(n).i4).p
    requires Sound(z, Most(hard)) && Onward(y, z) && RootKept(y, z, Nth(n).i4) && Section(y.m, z.m, n, p, 1)
    requires p < |z.ref| && z.ref[p] == 1 && (hard ==> p !in z.free)
    ensures PageMapped(x, z, n, p, hard)
  {
    hide Nth, Entry, Sound;
    RootKeptTrans(x, y, z, Nth(n).i4);
  }

  /** The entry for `va`, virtual page number `n`, is made to name the frame `p`. */
  method MapPage(k: Loader, va: nat, p: nat, hard: bool, ghost n: nat, ghost soft: bool) returns (r: Status)
    requires k.Valid() && Sound(k.L(soft), Most(hard)) && AllLow(soft, k.free.elems) && !Entry(k.L(soft).m, n).p
    requires n < LIMIT && PageOfAddr(va) == Nth(n) && p < |k.ref| && p < SIGN && Tight(k.L(soft).m, 0)
    modifies k`phys, k`ref, k.free.Repr()
    ensures k.Valid()
    ensures r == Done ==> Tight(k.L(soft).m, 0)
    ensures r == Done ==> MappedPages(k.L(soft).m, 0) == MappedPages(old(k.L(soft)).m, 0) + iset{Nth(n)}
    ensures r == Done ==>
              MapOne(old(k.free.elems), MappedPages(old(k.L(soft)).m, 0), Nth(n), p, hard) == Some(k.free.elems)
    ensures r == NoPages ==> MapOne(old(k.free.elems), MappedPages(old(k.L(soft)).m, 0), Nth(n), p, hard) == None
    ensures r == Done ==> PageMapped(old(k.L(soft)), k.L(soft), n, p, hard)
    ensures r == NoPages ==> PageFailed(old(k.L(soft)), k.L(soft), n, hard)
    ensures r == Astray ==> OutOfReach(old(k.free.elems))
    ensures OutOfReach(old(k.free.elems)) && !At(old(k.L(soft)).m, k.pml4, Nth(n).i4).p ==>
              && r == Astray
              && StrayedFrom(old(k.phys), old(k.free.elems), k.phys, k.free.elems, k.pml4, Nth(n).i4)
  {
    hide Sound, Extends, Onward, RootKept, Section, Node, Linked, OffListZero, Marked, Looked, Nth;
    hide PageOfAddr, PageMapped, At, AllLow, StrayedFrom, Tight, MappedPages, MapOne, Missing, Sprouted;
    ghost var x, most := k.L(soft), Most(hard);
    var T := Lookup(k, va, most, soft);
    if T == ASTRAY {
      return Astray;
    }
    ghost var y := k.L(soft);
    StillSound(x, y, most, soft);
    ExtendsOnward(x, y, most);
    ExtendsSection(x, y, hard);
    if T == NULL {
      FailedStock(x, hard, n, p);
      return NoPages;
    }
    ghost var j := Write(k, T, PageOfAddr(va).i1, p, hard, n, soft, x);
    PlaceSound(y, hard, n, T, p, j);
    PlaceEntries(y, hard, n, T, p, k.L(soft).m);
    PlaceRoot(y, hard, n, T, Frame(p));
    MappedAfter(x, y, k.L(soft), n, p, hard);
    PlacedStock(x, y, hard, n, T, p, j);
    return Done;
  }

  /** The writes of one round, to the entry `i` of the page table `T` and to the page record. */
  method Write(k: Loader, T: nat, i: Index, p: nat, hard: bool, ghost n: nat, ghost soft: bool, ghost x: Load)
    returns (ghost j: nat)
    requires k.Valid() && Sound(k.L(soft), Most(hard)) && Section(x.m, k.L(soft).m, 0, 0, 0) && !Entry(x.m, n).p
    requires n < LIMIT && i == Nth(n).i1 && p < |k.ref| && p < SIGN
    requires Node(k.L(soft).m, 5, TOP, Path(0, Nth(n)), 1) == Some(T)
    modifies k`phys, k`ref, k.free.Repr()
    ensures k.Valid() && T < |k.phys| == |old(k.phys)| && |old(k.L(soft)).m.phys[T]| == TABLE_SIZE
    ensures k.ref == old(k.L(soft)).ref[p := 1]
    ensures old(k.ref[p]) == 0 && hard ==> j < |old(k.free.elems)| && old(k.free.elems)[j] == p
    ensures k.L(soft) == Placed(old(k.L(soft)), T, i, p, hard, j)
  {
    hide Sound, Section, Node, Linked, OffListZero, Marked, Looked, Nth, Look, SetWord;
    ghost var y := k.L(soft);
    TableThere(y, Most(hard), Path(0, Nth(n)), 1);
    PlaceRoot(y, hard, n, T, Frame(p));
    EntryAt(x, y, n, T);
    LookFlags(soft, k.phys[T][i]);
    assert !k.phys[T][i].p;
    LookedSet(soft, k.phys, T, i, Frame(p));
    LookFrame(soft, p);
    k.phys := k.phys[T := k.phys[T][i := Word(p, true, true, false, false, 0)]];
    assert k.L(soft).m == SetWord(y.m, T, i, Frame(p)) by { SetWordIs(y.m, T, i, Frame(p)); }
    OnList(y, hard, p);
    j := 0;
    if k.ref[p] == 0 {
      k.ref := k.ref[p := k.ref[p] + 1];
      if hard {
        j :| 0 <= j < |y.free| && y.free[j] == p;
        Detach(k.free, p, j);
      }
    }
  }

  lemma SetWordIs(m: Mem, T: nat, i: nat, e: Word)
    requires T < |m.phys| && i < |m.phys[T]|
    ensures SetWord(m, T, i, e) == m.(phys := m.phys[T := m.phys[T][i := e]])
  {
  }

  lemma LookFrame(soft: bool, p: nat)
    requires p < SIGN
    ensures Look(soft, Frame(p)) == Frame(p)
  {
  }

  /** An unused page is on the list. */
  lemma OnList(x: Load, hard: bool, p: nat)
    requires Sound(x, Most(hard)) && p < |x.ref|
    ensures |x.ref| == |x.m.phys| && (if x.ref[p] == 0 then p in x.free else x.ref[p] == 1)
  {
  }

  lemma EntryAt(x: Load, y: Load, n: nat, T: nat)
    requires Section(x.m, y.m, 0, 0, 0) && n < LIMIT && Node(y.m, 5, TOP, Path(0, Nth(n)), 1) == Some(T)
    requires T < |y.m.phys| && |y.m.phys[T]| == TABLE_SIZE
    ensures y.m.phys[T][Nth(n).i1] == Entry(x.m, n)
  {
    hide Nth;
    NodeLeaf(y.m, 5, TOP, Path(0, Nth(n)));
  }

  // ------------------------------------------------------------------------
  // A whole section

  /** The pages below one entry of a PML4. */
  const SPAN: nat := 0x800_0000

  predicate Touches(n: nat, cnt: nat, j: nat) {
    var next := j + 1;
    j * SPAN < n + cnt && n < next * SPAN
  }

  lemma SlotTouched(n: nat, cnt: nat, i: nat)
    requires n <= i < n + cnt && i < LIMIT
    ensures Touches(n, cnt, Nth(i).i4)
  {
    assert i / 512 / 512 / 512 == i / SPAN < 512;
    assert i / SPAN * SPAN <= i < (i / SPAN + 1) * SPAN;
  }

  /** The entries of the PML4 that were present, or that no page of the section needs, are as before;
      the one its first page needs is there and, if it is new, names the page that was first on the
      list. */
  ghost predicate RootOutside(x: Load, y: Load, n: nat, cnt: nat) {
    && |x.m.roots| > 0 && y.m.roots == x.m.roots
    && (forall j: nat :: !Touches(n, cnt, j) || At(x.m, x.m.roots[0], j).p ==>
          At(y.m, x.m.roots[0], j) == At(x.m, x.m.roots[0], j))
    && (cnt > 0 ==> TopTable(x, y, Nth(n).i4))
  }

  ghost predicate TopTable(x: Load, y: Load, i: nat) {
    && |x.m.roots| > 0 && At(y.m, x.m.roots[0], i).p
    && (!At(x.m, x.m.roots[0], i).p ==> |x.free| > 0 && At(y.m, x.m.roots[0], i).ppn == x.free[0])
  }

  /** The section translates as written, every other translation is as it was, and its pages are
      used once; those to keep are off the list. */
  ghost predicate SectionMapped(x: Load, y: Load, n: nat, p: nat, cnt: nat, hard: bool) {
    && Sound(y, Most(hard)) && Onward(x, y) && RootOutside(x, y, n, cnt) && Section(x.m, y.m, n, p, cnt)
    && (cnt == 0 ==> y == x)
    && p + cnt <= |y.ref| && forall r: nat :: p <= r < p + cnt ==> y.ref[r] == 1 && (hard ==> r !in y.free)
  }

  lemma SectionStart(x: Load, n: nat, p: nat, hard: bool)
    requires Sound(x, Most(hard)) && p <= |x.ref|
    ensures SectionMapped(x, x, n, p, 0, hard)
  {
  }

  lemma TouchesMore(n: nat, cnt: nat, j: nat)
    ensures Touches(n, cnt, j) ==> Touches(n, cnt + 1, j)
  {
  }

  lemma SectionStep(x: Load, y: Load, z: Load, n: nat, p: nat, cnt: nat, hard: bool)
    requires SectionMapped(x, y, n, p, cnt, hard) && n + cnt < LIMIT && PageMapped(y, z, n + cnt, p + cnt, hard)
    ensures SectionMapped(x, z, n, p, cnt + 1, hard)
  {
    hide Nth, Entry, Sound, Touches, At;
    SlotTouched(n, cnt + 1, n + cnt);
    forall j: nat ensures Touches(n, cnt, j) ==> Touches(n, cnt + 1, j) { TouchesMore(n, cnt, j); }
  }

  /** A section that gave out of pages half way. */
  lemma SectionStop(x: Load, y: Load, z: Load, n: nat, p: nat, cnt: nat, hard: bool)
    requires SectionMapped(x, y, n, p, cnt, hard) && n + cnt < LIMIT && PageFailed(y, z, n + cnt, hard)
    ensures Sound(z, Most(hard)) && Onward(x, z) && Section(x.m, z.m, n, p, cnt) && z.free == []
  {
    hide Nth, Entry, Sound, Touches;
  }

  lemma StillAbsent(x: Load, y: Load, n: nat, p: nat, cnt: nat, hard: bool, soft: bool)
    requires SectionMapped(x, y, n, p, cnt, hard) && n + cnt < LIMIT && !Entry(x.m, n + cnt).p && AllLow(soft, x.free)
    requires Sound(x, Most(hard))
    ensures !Entry(y.m, n + cnt).p && Sound(y, Most(hard)) && |y.ref| == |x.ref| && AllLow(soft, y.free)
    ensures OutOfReach(y.free) ==> OutOfReach(x.free)
  {
    hide Cnt, Once, Entry;
    forall i | 0 <= i < |y.free| ensures y.free[i] in x.free { assert y.free[i] in y.free; }
    if |y.free| > 0 { HighestFirst(x, Most(hard), y.free[0]); }
  }

  /** loader_map_section: the entry is absent in every round. */
  method MapSection(k: Loader, va: nat, pa: nat, len: nat, hard: bool, ghost soft: bool)
    returns (r: Status, ghost done: nat)
    requires k.Valid() && Sound(k.L(soft), Most(hard)) && AllLow(soft, k.free.elems)
    requires First(va) + Count(len) <= LIMIT && pa / PAGE_SIZE + Count(len) <= |k.ref| <= SIGN
    requires forall i: nat :: First(va) <= i < First(va) + Count(len) ==> !Entry(k.L(soft).m, i).p
    requires Tight(k.L(soft).m, 0)
    modifies k`phys, k`ref, k.free.Repr()
    ensures k.Valid()
    ensures r == Done ==> done == Count(len)
    ensures r == Done ==> SectionMapped(old(k.L(soft)), k.L(soft), First(va), pa / PAGE_SIZE, done, hard)
    ensures r == Done ==> Stocked(old(k.L(soft)), k.L(soft), First(va), pa / PAGE_SIZE, done, hard)
    ensures r == NoPages ==>
              var P := MappedPages(old(k.L(soft)).m, 0);
              SectionList(old(k.free.elems), P, First(va), pa / PAGE_SIZE, Count(len), hard).None?
    ensures r == NoPages ==> done < Count(len) && k.free.elems == [] && Sound(k.L(soft), Most(hard))
    ensures r == NoPages ==> Section(old(k.L(soft)).m, k.L(soft).m, First(va), pa / PAGE_SIZE, done)
    ensures r == Astray ==> OutOfReach(old(k.free.elems))
    ensures OutOfReach(old(k.free.elems)) && Count(len) > 0 && !At(old(k.L(soft)).m, k.pml4, Nth(First(va)).i4).p ==>
              && r == Astray
              && StrayedFrom(old(k.phys), old(k.free.elems), k.phys, k.free.elems, k.pml4, Nth(First(va)).i4)
  {
    hide Sound, SectionMapped, PageMapped, PageFailed, Section, Entry, Nth, Linked, OffListZero, Marked;
    hide First, Looked, At, PageOfAddr;
    hide AllLow, OutOfReach, StrayedFrom, Stocked, Tight, MappedPages, SectionList, MapOne;
    ghost var x, n, p := k.L(soft), First(va), pa / PAGE_SIZE;
    ghost var lost := OutOfReach(x.free) && !At(x.m, k.pml4, Nth(n).i4).p;
    var start, bytes := RoundDown(va), RoundUp(len);
    done := 0;
    SectionStart(x, n, p, hard);
    StockedStart(x, n, p, hard);
    var i := 0;
    while i < bytes
      invariant 0 <= done <= Count(len) && i == done * PAGE_SIZE && k.Valid() && |k.ref| == |x.ref|
      invariant SectionMapped(x, k.L(soft), n, p, done, hard) && Stocked(x, k.L(soft), n, p, done, hard)
      invariant (done == 0 ==> k.L(soft) == x && k.phys == old(k.phys)) && (done > 0 ==> !lost)
    {
      SectionPage(va, done);
      SectionFrame(pa, done);
      ghost var y := k.L(soft);
      assert !Entry(x.m, n + done).p;
      StillAbsent(x, y, n, p, done, hard, soft);
      StockedTight(x, y, n, p, done, hard);
      r := MapPage(k, start + i, (pa + i) / PAGE_SIZE, hard, n + done, soft);
      if r == Astray {
        return;
      }
      if r == NoPages {
        SectionStop(x, y, k.L(soft), n, p, done, hard);
        StockedStop(x, y, n, p, done, hard, Count(len));
        return;
      }
      SectionStep(x, y, k.L(soft), n, p, done, hard);
      StockedStep(x, y, k.L(soft), n, p, done, hard);
      done := done + 1;
      i := i + PAGE_SIZE;
      SectionShape(x, k.L(soft), n, p, done, hard);
    }
    return Done, done;
  }

  lemma StockedTight(x: Load, y: Load, n: nat, p: nat, cnt: nat, hard: bool)
    requires Stocked(x, y, n, p, cnt, hard)
    ensures Tight(y.m, 0)
  {
  }

  lemma SectionShape(x: Load, y: Load, n: nat, p: nat, cnt: nat, hard: bool)
    requires SectionMapped(x, y, n, p, cnt, hard)
    ensures |y.ref| == |x.ref|
  {
  }
}
