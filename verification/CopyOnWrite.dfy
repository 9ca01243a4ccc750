/** What a handled copy-on-write fault does to memory. */
module CopyOnWrite {
  import opened Mmu
  import opened PageTree
  import opened Memory
  import opened Sharing
  import opened Views

  /** Overwriting an allocated page that is no table keeps the invariant. */
  lemma DataInv(s: Sys, p: nat, f: seq<Word>)
    requires Inv(s) && InUse(s, p) && Tables(s.m, p) == 0 && |f| == TABLE_SIZE
    ensures var s' := s.(m := SetPage(s.m, p, f)); Inv(s') && SameForest(s.m, s'.m)
  {
    hide Cnt, Ent, Leaf, Slot, Tables, Maps, Pte, Once;
    var s' := s.(m := SetPage(s.m, p, f));
    SetPageSameBut(s.m, p, f);
    NonTable(s.m, s'.m, p);
    SameOnce(s.m, s'.m);
    forall t: nat, x: nat | t < |s.m.roots| && s.m.roots[t] >= 0 && USER_SLOTS <= x
      ensures At(s'.m, s.m.roots[t], x) == At(s.m, s.m.roots[t], x)
    {
      RootIsTable(s.m, t);
    }
    KernelHalfKept(s.m, s'.m, s.c);
    forall r: int ensures Refs(s', r) == Refs(s, r) {}
  }

  /** The entry a handled fault leaves behind: a page of its own, writable, still marked COW. */
  function Private(e: Word, p: nat): Word { e.(ppn := p, w := true) }

  /** A write fault at `q` on a copy-on-write page whose entry is in the page table `N`, with a free
      page left, while KERNEL_TEMP is unmapped. */
  ghost predicate Faulting(s: Sys, q: Path, N: nat) {
    && Fine(s) && TempPte(s.m, s.c) == ZERO && |s.free| > 0 && Holds(s, q, N) && Pte(s.m, q).p && Pte(s.m, q).cow
  }

  /** The state after the handler has copied the page. */
  function Copy(s: Sys, q: Path, N: nat): Sys
    requires |s.free| > 0 && s.free[0] < |s.ref| == |s.m.phys| && N < |s.m.phys| && q.v.i1 < |s.m.phys[N]|
    requires N != s.free[0]
    requires var p := Pte(s.m, q).ppn; p < |s.ref| && s.ref[p] > 0
  {
    var e, n := Pte(s.m, q), s.free[0];
    Sys(SetWord(SetPage(s.m, n, s.m.phys[e.ppn]), N, q.v.i1, Private(e, n)),
        s.ref[e.ppn := s.ref[e.ppn] - 1][n := 1],
        (if s.ref[e.ppn] == 1 then [e.ppn] else []) + s.free[1..],
        s.c)
  }

  lemma FaultPages(s: Sys, q: Path, N: nat)
    requires Faulting(s, q, N)
    ensures var p, n := Pte(s.m, q).ppn, s.free[0];
            && InUse(s, p) && s.ref[p] > 0 && Tables(s.m, p) == 0 && n < |s.ref| == |s.m.phys| && n != p && n != N
            && p != N && n !in s.c.boot
            && InUse(s, N) && N < |s.m.phys| && |s.m.phys[N]| == TABLE_SIZE && |s.m.phys[p]| == TABLE_SIZE
            && Refs(s, n) == 0 && !InUse(s, n) && s.c.kpt < |s.m.phys| && |s.m.phys[s.c.kpt]| == TABLE_SIZE
            && s.c.kpt != n && s.c.kpt != p && s.c.kpt != N
  {
    hide Cnt, Ent, Leaf, Slot, Maps, Pte, Once, Node;
    PteTarget(s, q);
    AllocInv(s);
    assert Refs(s, N) > 0;
    assert s.c.kpt in s.c.boot;
  }

  /** The translations and counts after the copy. */
  lemma CopyForest(s: Sys, q: Path, N: nat)
    requires Faulting(s, q, N) && Inv(s)
    ensures var n := s.free[0];
            && N != n && n < |s.m.phys| && Pte(s.m, q).ppn < |s.m.phys| && N < |s.m.phys| && |s.m.phys[N]| == TABLE_SIZE
    ensures var n := s.free[0];
            PteSet(s.m, SetWord(SetPage(s.m, n, s.m.phys[Pte(s.m, q).ppn]), N, q.v.i1, Private(Pte(s.m, q), n)), q,
                Private(Pte(s.m, q), n))
  {
    hide Cnt, Ent, Leaf, Slot, Maps, Once, Node, Tables, Exact;
    FaultPages(s, q, N);
    var n, p := s.free[0], Pte(s.m, q).ppn;
    var s1 := Popped(s);
    AllocInv(s);
    assert Tables(s.m, n) == 0 by { RefsNone(s, n); }
    DataInv(s1, n, s.m.phys[p]);
    var s3 := s1.(m := SetPage(s.m, n, s.m.phys[p]));
    CopyHolds(s, s3, q, N, n);
    PteForest(s3, q, N, Private(Pte(s.m, q), n));
  }

  lemma CopyHolds(s: Sys, s3: Sys, q: Path, N: nat, n: nat)
    requires Inv(s) && Holds(s, q, N) && n < |s.m.phys| && N != n && Tables(s.m, n) == 0
    requires |s3.m.phys| == |s.m.phys| && s3.m == SetPage(s.m, n, s3.m.phys[n]) && s3.c == s.c && SameForest(s.m, s3.m)
    ensures Holds(s3, q, N) && Pte(s3.m, q) == Pte(s.m, q)
  {
    hide Cnt, Ent, Leaf, Slot, Once, Exact, KernelHalf;
    SetPageSameBut(s.m, n, s3.m.phys[n]);
    FrameNode(s.m, s3.m, 5, TOP, q, 1);
  }

  /** The new page is mapped once; other writable pages are not concerned. */
  lemma CopySole(s: Sys, q: Path, N: nat)
    requires Faulting(s, q, N) && Inv(s)
    ensures s.free[0] < |s.ref| == |s.m.phys| && N < |s.m.phys| && q.v.i1 < |s.m.phys[N]| && N != s.free[0]
    ensures var p := Pte(s.m, q).ppn; p < |s.ref| && s.ref[p] > 0
    ensures Sole(Copy(s, q, N).m) && Maps(Copy(s, q, N).m, s.free[0]) == 1
  {
    hide Cnt, Ent, Leaf, Slot, Once, Node, Tables, Exact, Forest, KernelHalf, Maps;
    FaultPages(s, q, N);
    CopyForest(s, q, N);
    var n, e, m' := s.free[0], Private(Pte(s.m, q), s.free[0]), Copy(s, q, N).m;
    RefsNone(s, n);
    forall r: Path | InTree(m', r) && Pte(m', r).p && Pte(m', r).w ensures Maps(m', Pte(m', r).ppn) == 1 {
      if r != q {
        CopyOther(s, q, N, r);
      }
    }
  }

  /** A writable page mapped elsewhere is neither the old nor the new page. */
  lemma CopyOther(s: Sys, q: Path, N: nat, r: Path)
    requires Faulting(s, q, N) && InTree(s.m, r) && r != q && Pte(s.m, r).p && Pte(s.m, r).w
    ensures Pte(s.m, r).ppn != Pte(s.m, q).ppn && Pte(s.m, r).ppn != s.free[0]
  {
    hide Cnt, Ent, Leaf, Slot, Once, Node, Tables;
    FaultPages(s, q, N);
    PteTarget(s, r);
    if Pte(s.m, r).ppn == Pte(s.m, q).ppn {
      MeetIsEqual(q, r);
      TwoLeavesCounted(s.m, 5, TOP, q, r);
    }
  }

  /** All that a handled fault at `q` does: the entry names the new page, which holds the old
      contents and has one reference; the old page has one reference fewer and is free if that was
      the last; KERNEL_TEMP is unmapped again; no table, no other translation, no other page and no
      other count has changed. */
  ghost predicate Handled(s: Sys, s': Sys, q: Path) {
    && |s.free| > 0 && InTree(s.m, q) && s.free[0] < |s.ref| == |s'.ref| && |s'.m.phys| == |s.m.phys| && s'.c == s.c
    && s'.m.roots == s.m.roots && s'.m.width == s.m.width
    && var e, n := Pte(s.m, q), s.free[0];
    && e.ppn < |s.ref| && s.ref[e.ppn] > 0 && e.ppn != n
    && s'.ref == s.ref[e.ppn := s.ref[e.ppn] - 1][n := 1]
    && s'.free == (if s.ref[e.ppn] == 1 then [e.ppn] else []) + s.free[1..]
    && (forall r: Path :: InTree(s.m, r) ==> Pte(s'.m, r) == if r == q then Private(e, n) else Pte(s.m, r))
    && (forall p: int :: Tables(s'.m, p) == Tables(s.m, p))
    && PageOf(s'.m, n) == PageOf(s.m, e.ppn)
    && (forall p: nat :: p != n && Tables(s.m, p) == 0 ==> PageOf(s'.m, p) == PageOf(s.m, p))
    && TempPte(s'.m, s.c) == ZERO && Maps(s'.m, n) == 1
  }

  /** The entry after a handled fault: the new page, writable, and all other bits, COW among them, as
      they were. */
  lemma HandledEntry(s: Sys, s': Sys, q: Path)
    requires Handled(s, s', q) && Pte(s.m, q).p && Pte(s.m, q).cow
    ensures var e, e' := Pte(s.m, q), Pte(s'.m, q);
            && e'.ppn == s.free[0] && e'.p && e'.w && e'.cow && (e'.u <==> e.u) && e'.rest == e.rest
  {
    hide Pte, Tables, Maps, PageOf;
  }

  /** No task sees a handled fault. */
  lemma HandledViews(s: Sys, s': Sys, q: Path)
    requires Inv(s) && Handled(s, s', q) && Pte(s.m, q).p && Pte(s.m, q).cow
    ensures SameShape(s.m, s'.m) && SameViews(s.m, s'.m)
  {
    hide Cnt, Ent, Leaf, Pte, Tables, Maps, Exact, Forest, KernelHalf;
    forall r: Path | InTree(s.m, r) ensures View(s'.m, r) == View(s.m, r) {
      if Pte(s.m, r).p { PteTarget(s, r); }
    }
  }

  /** A handled fault loses no page. */
  lemma HandledLimbo(s: Sys, s': Sys, q: Path, p: int)
    requires Inv(s) && Inv(s') && Handled(s, s', q)
    ensures Limbo(s', p) <==> Limbo(s, p)
  {
    hide Cnt, Ent, Leaf, Pte, Tables, Maps, Exact, Forest, KernelHalf;
    var e, n := Pte(s.m, q), s.free[0];
    assert forall x: nat :: x in s.free <==> x in s.free[1..] || x == n;
    assert forall x: nat :: x in s'.free <==> x in s.free[1..] || (s.ref[e.ppn] == 1 && x == e.ppn);
  }

  lemma CopyHandled(s: Sys, q: Path, N: nat)
    requires Faulting(s, q, N) && Inv(s)
    ensures s.free[0] < |s.ref| == |s.m.phys| && N < |s.m.phys| && q.v.i1 < |s.m.phys[N]| && N != s.free[0]
    ensures var p := Pte(s.m, q).ppn; p < |s.ref| && s.ref[p] > 0
    ensures Handled(s, Copy(s, q, N), q)
  {
    hide Cnt, Ent, Leaf, Slot, Once, Node, Exact, Forest, KernelHalf, Maps;
    FaultPages(s, q, N);
    CopyForest(s, q, N);
    CopySole(s, q, N);
  }

  // ------------------------------------------------------------------------
  // The handler's steps

  ghost predicate FaultFits(s: Sys, q: Path, N: nat) {
    && |s.free| > 0 && s.free[0] < |s.ref| == |s.m.phys| && N < |s.m.phys| && q.v.i1 < |s.m.phys[N]| && N != s.free[0]
    && var p := Pte(s.m, q).ppn;
    && p < |s.ref| && s.ref[p] > 0 && TempFits(s.c, s)
  }

  /** The new page is mapped at KERNEL_TEMP. */
  function Staged(s: Sys, et: Word): Sys
    requires |s.free| > 0 && s.free[0] < |s.ref| && TempFits(s.c, s) && et.ppn < |s.ref|
  {
    Mapped(Popped(s), s.c.kpt, TEMP.i1, et)
  }

  lemma StagedInv(s: Sys, q: Path, N: nat, et: Word)
    requires Faulting(s, q, N) && et.p && et.ppn == s.free[0]
    ensures FaultFits(s, q, N) && InUse(Popped(s), s.free[0]) && Tables(s.m, s.free[0]) == 0 && Inv(Popped(s))
    ensures var s2 := Staged(s, et);
            && Inv(s2) && SameForest(s.m, s2.m) && TempPte(s2.m, s.c) == et && InUse(s2, s.free[0])
    ensures var s2 := Staged(s, et);
            && s2.m.phys[Pte(s.m, q).ppn] == s.m.phys[Pte(s.m, q).ppn] && Pte(s2.m, q) == Pte(s.m, q)
  {
    hide Cnt, Ent, Leaf, Slot, Once, Node, Tables, Maps, Exact, Forest, KernelHalf, Pte;
    FaultPages(s, q, N);
    AllocInv(s);
    RefsNone(s, s.free[0]);
    TempForest(Popped(s), et);
    TempMapInv(Popped(s), et);
  }

  /** The contents have been copied. */
  function Filled(s: Sys, q: Path, et: Word): Sys
    requires |s.free| > 0 && s.free[0] < |s.ref| == |s.m.phys| && TempFits(s.c, s) && et.ppn < |s.ref|
    requires Pte(s.m, q).ppn < |s.ref|
  {
    var s2 := Staged(s, et);
    s2.(m := SetPage(s2.m, s.free[0], s2.m.phys[Pte(s.m, q).ppn]))
  }

  lemma FilledInv(s: Sys, q: Path, N: nat, et: Word)
    requires Faulting(s, q, N) && et.p && et.ppn == s.free[0] && FaultFits(s, q, N)
    ensures var s3 := Filled(s, q, et);
            && Inv(s3) && Holds(s3, q, N) && Pte(s3.m, q) == Pte(s.m, q) && InUse(s3, s.free[0])
            && Tables(s3.m, s.free[0]) == 0
            && TempPte(s3.m, s.c) == et
  {
    hide Cnt, Ent, Leaf, Slot, Once, Tables, Maps, Exact, Forest, KernelHalf, Pte, Node;
    FaultPages(s, q, N);
    StagedInv(s, q, N, et);
    var s2, n := Staged(s, et), s.free[0];
    StagedHolds(s, s2, q, N, et);
    DataInv(s2, n, s2.m.phys[Pte(s.m, q).ppn]);
    CopyHolds(s2, Filled(s, q, et), q, N, n);
  }

  lemma StagedHolds(s: Sys, s2: Sys, q: Path, N: nat, et: Word)
    requires Inv(s) && Holds(s, q, N) && TempFits(s.c, s) && s2.m == SetWord(s.m, s.c.kpt, TEMP.i1, et) && s2.c == s.c
    requires SameForest(s.m, s2.m) && s.c.kpt != N
    ensures Holds(s2, q, N)
  {
    hide Cnt, Ent, Leaf, Slot, Once;
    assert Refs(s, s.c.kpt) == 0;
    FrameNode(s.m, s2.m, 5, TOP, q, 1);
  }

  /** Mapping the page in its place and clearing KERNEL_TEMP completes the copy. */
  lemma FilledThenStored(s: Sys, q: Path, N: nat, et: Word)
    requires Faulting(s, q, N) && et.p && et.ppn == s.free[0] && FaultFits(s, q, N)
    ensures var s3, e := Filled(s, q, et), Private(Pte(s.m, q), s.free[0]);
            && At(s3.m, N, q.v.i1) == Pte(s.m, q) && s3.ref[Pte(s.m, q).ppn] > 0
    ensures var s4 := Stored(Filled(s, q, et), N, q.v.i1, Private(Pte(s.m, q), s.free[0]));
            && TempFits(s.c, s4) && TempPte(s4.m, s.c) == et && et.ppn < |s4.ref| && s4.ref[et.ppn] > 0
            && Unmapped(s4, s.c.kpt, TEMP.i1) == Copy(s, q, N)
  {
    hide Cnt, Ent, Leaf, Slot, Once, Tables, Maps, Exact, Forest, KernelHalf, Pte, Node, Inv;
    FaultPages(s, q, N);
    FilledInv(s, q, N, et);
    var s3 := Filled(s, q, et);
    var e, n, p, x, kpt := Private(Pte(s.m, q), s.free[0]), s.free[0], Pte(s.m, q).ppn, q.v.i1, s.c.kpt;
    var s4 := Stored(s3, N, x, e);
    SetTwice(s3.m, N, x, e);
    assert s4.m == SetWord(s3.m, N, x, e);
    var a, b := Unmapped(s4, kpt, TEMP.i1), Copy(s, q, N);
    assert s.m.phys[kpt][TEMP.i1] == ZERO;
    assert s.m.phys[kpt][TEMP.i1 := et][TEMP.i1 := ZERO] == s.m.phys[kpt];
    assert a.m.phys == b.m.phys;
    assert a.ref == b.ref;
    assert a.free == b.free;
  }

  /** An entry marked copy-on-write is present and belongs to the task itself. */
  lemma CowIsUser(s: Sys, r: int, q: Path)
    requires Inv(s) && TempPte(s.m, s.c) == ZERO && Root(s, r, q) && Leaf(s.m, 4, r, q).cow
    ensures !KernelPath(q) && Leaf(s.m, 4, r, q).p && Pte(s.m, q) == Leaf(s.m, 4, r, q) && Node(s.m, 4, r, q, 1).Some?
  {
    hide Cnt, Ent, Exact;
    RootLeaf(s.m, r, q);
    if Node(s.m, 4, r, q, 1).None? { NoNodeNoLeaf(s.m, 4, r, q); }
    if KernelPath(q) { KernelPlain(s, r, q); }
  }

  /** No kernel entry is copy-on-write or open to user code. */
  lemma KernelPlain(s: Sys, r: int, q: Path)
    requires Inv(s) && TempPte(s.m, s.c) == ZERO && Root(s, r, q) && KernelPath(q)
    ensures !Leaf(s.m, 4, r, q).cow && !Leaf(s.m, 4, r, q).u
  {
    hide Cnt, Ent, Exact;
    if q.v == TEMP {
      TempNode(s, r, q.t);
    } else {
      assert At(s.m, r, q.v.i4) == At(s.m, s.c.kroot, q.v.i4);
      assert Leaf(s.m, 4, r, q) == Leaf(s.m, 4, s.c.kroot, q);
    }
  }
}
