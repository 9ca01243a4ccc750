/** src/kernel/lib/memory/map.c */
module Map {
  import opened Mmu
  import opened PageTree
  import opened Queue
  import opened Memory
  import opened Machine
  import opened Growth
  import opened Sharing

  method PageAlloc(k: Machine) returns (p: int)
    requires k.Valid()
    modifies k`ref, k.free.Repr()
    ensures k.Valid()
    ensures |old(k.free.elems)| == 0 ==> p == NULL && k.S() == old(k.S())
    ensures |old(k.free.elems)| > 0 ==> p == old(k.free.elems[0]) < |k.ref| && k.S() == Popped(old(k.S()))
    ensures p != NULL ==> 0 <= p < k.free.prev.Length && k.free.next[p] == NULL && k.free.prev[p] == Nil
  {
    hide Linked;
    p := k.free.First();
    if p != NULL {
      k.free.Remove(p, 0);
      k.free.Clear(p);
      k.ref := k.ref[p := 0];
    }
  }

  method PageFree(k: Machine, p: nat)
    requires k.Valid() && p < |k.ref| && p !in k.free.elems && k.ref[p] == 0
    modifies k.free.Repr()
    ensures k.Valid() && k.free.elems == [p] + old(k.free.elems)
  {
    hide Linked;
    k.free.InsertHead(p);
  }

  method PageIncref(k: Machine, p: nat)
    requires p < |k.ref|
    modifies k`ref
    ensures k.ref == old(k.ref)[p := old(k.ref[p]) + 1]
  {
    k.ref := k.ref[p := k.ref[p] + 1];
  }

  method PageDecref(k: Machine, p: nat)
    requires k.Valid() && p < |k.ref| && p !in k.free.elems && k.ref[p] > 0
    modifies k`ref, k.free.Repr()
    ensures k.Valid() && k.S() == Dropped(old(k.S()), p)
  {
    hide Linked;
    k.ref := k.ref[p := k.ref[p] - 1];
    if k.ref[p] == 0 {
      PageFree(k, p);
    }
  }

  const USER_TABLE := Word(0, true, true, true, false, 0)

  /** Entry `x` of the table `T` of level `l` is to name a new, empty table. */
  method NewTable(k: Machine, T: nat, x: Index, ghost r: int, ghost q: Path, ghost l: nat) returns (Z: int)
    requires k.Valid() && Inv(k.S()) && Root(k.S(), r, q) && !KernelPath(q) && 2 <= l <= 4 && x == Idx(q, l)
    requires Node(k.S().m, 4, r, q, l) == Some(T) && T < |k.phys| && !At(k.S().m, T, x).p
    modifies k`phys, k`ref, k.free.Repr()
    ensures k.Valid() && Inv(k.S()) && Grown(old(k.S()), k.S(), q.t)
    ensures Z != NULL ==> Z >= 0 && Node(k.S().m, 4, r, q, l - 1) == Some(Z)
    ensures Z != NULL ==> (l > 2 ==> Node(k.S().m, 4, r, q, l - 2) == None)
    ensures Z != NULL ==> |k.free.elems| == |old(k.free.elems)| - 1
    ensures Z != NULL ==> Sprouted(old(k.S().m), k.S().m, q, l - 1)
    ensures Z == NULL ==> k.S() == old(k.S()) && k.free.elems == []
  {
    hide Inv, Grown, Node, Linked, Room, Sprouted;
    ghost var s := k.S();
    GrownRefl(s, q.t);
    Z := PageAlloc(k);
    if Z != NULL {
      GrowAll(s, r, q, l, T, USER_TABLE.(ppn := Z));
      GrowSprouts(s, q, l, T, USER_TABLE.(ppn := Z), r);
      k.phys := k.phys[Z := Zeros()];
      k.ref := k.ref[Z := 1];
      k.phys := k.phys[T := k.phys[T][x := USER_TABLE.(ppn := Z)]];
      assert k.S() == Hanging(s, T, x, USER_TABLE.(ppn := Z));
      if l > 2 {
        NodeStep(k.S().m, 4, r, q, l - 2);
        HangingBlank(s, T, x, USER_TABLE.(ppn := Z), Idx(q, l - 1));
      }
    }
  }

  lemma GrowSprouts(s: Sys, q: Path, l: nat, N: nat, e: Word, r: int)
    requires Inv(s) && Root(s, r, q) && 2 <= l <= 4 && |s.free| > 0 && Room(s, q, l, N, s.free[0])
    requires e.p && e.ppn == s.free[0]
    ensures s.free[0] < |s.ref| == |s.m.phys| && Sprouted(s.m, Hanging(s, N, Idx(q, l), e).m, q, l - 1)
  {
    hide Cnt, Ent, Node, Once, Sprouted, KernelHalf, Exact;
    HungSprouts(s.m, q, l, N, s.free[0], e);
  }

  lemma HangingBlank(s: Sys, N: nat, x: nat, e: Word, y: nat)
    requires |s.free| > 0 && s.free[0] < |s.ref| == |s.m.phys| && N < |s.m.phys| && N != s.free[0] && x < |s.m.phys[N]|
    ensures At(Hanging(s, N, x, e).m, s.free[0], y) == ZERO
  {
  }

  /** One level of mmap_lookup: the table named by entry `x` of `T`, made if it is missing. */
  method Descend(k: Machine, T: nat, x: Index, create: bool, ghost r: int, ghost q: Path, ghost l: nat) returns (C: int)
    requires k.Valid() && Inv(k.S()) && Root(k.S(), r, q) && 2 <= l <= 4 && x == Idx(q, l)
    requires Node(k.S().m, 4, r, q, l) == Some(T)
    requires create && KernelPath(q) ==> Node(k.S().m, 4, r, q, 1).Some?
    modifies k`phys, k`ref, k.free.Repr()
    ensures k.Valid() && Inv(k.S())
    ensures Node(old(k.S().m), 4, r, q, l - 1).Some? || !create ==> k.S() == old(k.S())
    ensures !KernelPath(q) ==> Grown(old(k.S()), k.S(), q.t)
    ensures C != NULL ==> C >= 0 && Node(k.S().m, 4, r, q, l - 1) == Some(C)
    ensures C == NULL ==> Node(k.S().m, 4, r, q, l - 1) == None && k.S() == old(k.S())
    ensures C == NULL ==> (create ==> k.free.elems == [])
    ensures !KernelPath(q) && C != NULL ==> Sprouted(old(k.S().m), k.S().m, q, l - 1)
    ensures Node(old(k.S().m), 4, r, q, l - 1).None? && C != NULL ==>
              |k.free.elems| == |old(k.free.elems)| - 1 && (l > 2 ==> Node(k.S().m, 4, r, q, l - 2) == None)
  {
    hide Inv, Grown, Node, Linked, Sprouted;
    GrownRefl(k.S(), q.t);
    WalkInRange(k.S(), r, q, l);
    NodeStep(k.S().m, 4, r, q, l - 1);
    var e := k.phys[T][x];
    if e.p {
      RootLeaf(k.S().m, r, q);
      FoundSprouts(k.S().m, q, l - 1);
      return e.ppn;
    }
    if !create {
      return NULL;
    }
    if KernelPath(q) {
      NodeAbove(k.S().m, 4, r, q, l - 1);
      assert false;
    }
    C := NewTable(k, T, x, r, q, l);
  }

  /** The table that holds the entry for the address `va`, or NULL; the index into it is PT_IDX(va). */
  method MmapLookup(k: Machine, pml4: nat, va: nat, create: bool, ghost t: nat) returns (T: int)
    requires k.Valid() && Inv(k.S()) && Root(k.S(), pml4, PathOf(t, va))
    requires create && KernelPath(PathOf(t, va)) ==> Node(k.S().m, 4, pml4, PathOf(t, va), 1).Some?
    modifies k`phys, k`ref, k.free.Repr()
    ensures k.Valid() && Inv(k.S()) && k.pml4 == old(k.pml4)
    ensures Node(old(k.S().m), 4, pml4, PathOf(t, va), 1).Some? || !create ==> k.S() == old(k.S())
    ensures !KernelPath(PathOf(t, va)) ==> Grown(old(k.S()), k.S(), t)
    ensures T != NULL ==> T >= 0 && Node(k.S().m, 4, pml4, PathOf(t, va), 1) == Some(T)
    ensures T == NULL ==> Node(k.S().m, 4, pml4, PathOf(t, va), 1) == None && (create ==> k.free.elems == [])
    ensures create ==> (T == NULL <==> |old(k.free.elems)| < Missing(old(k.S().m), pml4, PathOf(t, va)))
    ensures create && T != NULL ==> |k.free.elems| == |old(k.free.elems)| - Missing(old(k.S().m), pml4, PathOf(t, va))
    ensures !KernelPath(PathOf(t, va)) && T != NULL ==> Sprouted(old(k.S().m), k.S().m, PathOf(t, va), 1)
  {
    hide Inv, Grown, Linked, Node, PageOfAddr, Sprouted;
    var v := PageOfAddr(va);
    ghost var q, s := PathOf(t, va), k.S();
    WalkLevels(s.m, pml4, q);
    var pdp := Descend(k, pml4, v.i4, create, pml4, q, 4);
    WalkLevels(k.S().m, pml4, q);
    if pdp == NULL {
      return NULL;
    }
    ghost var s1 := k.S();
    var pd := Descend(k, pdp, v.i3, create, pml4, q, 3);
    WalkLevels(k.S().m, pml4, q);
    if !KernelPath(q) { GrownTrans(s, s1, k.S(), t); }
    if pd == NULL {
      return NULL;
    }
    ghost var s2 := k.S();
    if !KernelPath(q) { GrownShape(s, s1, t); SproutedTrans(s.m, s1.m, s2.m, q, 2); }
    T := Descend(k, pd, v.i2, create, pml4, q, 2);
    if !KernelPath(q) { GrownTrans(s, s2, k.S(), t); }
    if !KernelPath(q) && T != NULL { GrownShape(s, s2, t); SproutedTrans(s.m, s2.m, k.S().m, q, 1); }
  }

  lemma GrownShape(s: Sys, s': Sys, t: nat)
    requires Grown(s, s', t)
    ensures SameShape(s.m, s'.m)
  {
  }

  /** The page mapped at `va`, or NULL, and the table that holds its entry, or NULL. */
  method PageLookup(k: Machine, pml4: nat, va: nat, ghost t: nat) returns (p: int, T: int)
    requires k.Valid() && Inv(k.S()) && Root(k.S(), pml4, PathOf(t, va))
    modifies k`phys, k`ref, k.free.Repr()
    ensures k.Valid() && k.S() == old(k.S())
    ensures T == (match Node(k.S().m, 4, pml4, PathOf(t, va), 1) case Some(N) => N case None => NULL)
    ensures T == NULL <==> Node(k.S().m, 4, pml4, PathOf(t, va), 1).None?
    ensures T != NULL ==> 0 <= T < |k.phys| && |k.phys[T]| == TABLE_SIZE
    ensures T != NULL ==> k.phys[T][PageOfAddr(va).i1] == Leaf(k.S().m, 4, pml4, PathOf(t, va))
    ensures var e := Leaf(k.S().m, 4, pml4, PathOf(t, va)); p == if e.p then e.ppn else NULL
  {
    hide Inv, Grown, Node, Leaf, Linked, PageOfAddr;
    ghost var q := PathOf(t, va);
    T := MmapLookup(k, pml4, va, false, t);
    if T == NULL {
      NoNodeNoLeaf(k.S().m, 4, pml4, q);
      return NULL, T;
    }
    WalkInRange(k.S(), pml4, q, 1);
    NodeLeaf(k.S().m, 4, pml4, q);
    var e := k.phys[T][PageOfAddr(va).i1];
    if !e.p {
      return NULL, T;
    }
    return e.ppn, T;
  }

  /** Takes away the mapping at `va`, if there is one. */
  method PageRemove(k: Machine, pml4: nat, va: nat, ghost t: nat)
    requires k.Valid() && Inv(k.S()) && Root(k.S(), pml4, PathOf(t, va))
    requires KernelPath(PathOf(t, va)) ==> PageOfAddr(va) == TEMP
    modifies k`phys, k`ref, k.free.Repr()
    ensures k.Valid() && Inv(k.S())
    ensures !Leaf(old(k.S().m), 4, pml4, PathOf(t, va)).p ==> k.S() == old(k.S())
    ensures Leaf(old(k.S().m), 4, pml4, PathOf(t, va)).p ==> Removable(old(k.S()), pml4, PathOf(t, va))
    ensures Leaf(old(k.S().m), 4, pml4, PathOf(t, va)).p ==>
              k.S() == Unmapped(old(k.S()), Node(old(k.S().m), 4, pml4, PathOf(t, va), 1).value, PageOfAddr(va).i1)
    ensures Leaf(old(k.S().m), 4, pml4, PathOf(t, va)).p && PageOfAddr(va) != TEMP ==>
              Retargeted(old(k.S()), k.S(), PathOf(t, va), ZERO)
  {
    hide Inv, Node, Leaf, Linked, Retargeted, PageOfAddr;
    var p, T := PageLookup(k, pml4, va, t);
    if p == NULL {
      return;
    }
    RemoveInv(k.S(), pml4, PathOf(t, va));
    PageDecref(k, p);
    k.phys := k.phys[T := k.phys[T][PageOfAddr(va).i1 := ZERO]];
  }

  /** Maps page `p` at `va` with the flags of `perm`; false when a table cannot be made. */
  method PageInsert(k: Machine, pml4: nat, p: nat, va: nat, perm: Word, ghost t: nat) returns (ok: bool)
    requires k.Valid() && Inv(k.S()) && Root(k.S(), pml4, PathOf(t, va)) && Site(k.S(), PathOf(t, va))
    requires InUse(k.S(), p) && Tables(k.S().m, p) == 0
    modifies k`phys, k`ref, k.free.Repr()
    ensures k.Valid() && Inv(k.S())
    ensures ok && PageOfAddr(va) != TEMP ==> Retargeted(old(k.S()), k.S(), PathOf(t, va), perm.(ppn := p, p := true))
    ensures PageOfAddr(va) == TEMP ==> ok
    ensures Node(old(k.S().m), 4, pml4, PathOf(t, va), 1).Some? ==>
              ok && StoredAt(old(k.S()), k.S(), pml4, PathOf(t, va), perm.(ppn := p, p := true))
    ensures PageOfAddr(va) == TEMP ==>
              TempFits(k.img, old(k.S())) && k.S() == Mapped(old(k.S()), k.img.kpt, TEMP.i1, perm.(ppn := p, p := true))
    ensures !ok ==> Grown(old(k.S()), k.S(), t) && k.free.elems == []
    ensures ok <==> |old(k.free.elems)| >= Missing(old(k.S().m), pml4, PathOf(t, va))
    ensures ok ==> |k.free.elems| == |old(k.free.elems)| - Missing(old(k.S().m), pml4, PathOf(t, va)) +
                   Displaced(old(k.S()), Leaf(old(k.S().m), 4, pml4, PathOf(t, va)), p)
    ensures ok && !KernelPath(PathOf(t, va)) ==> Sprouted(old(k.S().m), k.S().m, PathOf(t, va), 1)
  {
    hide Inv, Node, Leaf, Linked, Retargeted, Grown, Tables, StoredAt, PageOfAddr, Site, Mapped, TempFits, Sprouted;
    hide Displaced;
    ghost var q, s := PathOf(t, va), k.S();
    var e := perm.(ppn := p, p := true);
    SiteStill(s, s, q);
    if KernelPath(q) { TempNode(s, pml4, t); }
    var T := MmapLookup(k, pml4, va, true, t);
    if T == NULL {
      return false;
    }
    ghost var s1 := k.S();
    SiteStill(s, s1, q);
    if !KernelPath(q) { GrownKeeps(s, s1, t, p); }
    DisplacedSame(s, s1, q, pml4, p);
    PutEntry(k, pml4, p, va, e, T, t);
    if !KernelPath(q) { GrownShape(s, s1, t); SproutedOn(s.m, s1.m, k.S().m, q); }
    if !KernelPath(q) { GrownRetargeted(s, s1, k.S(), q, e); }
    return true;
  }

  lemma SiteStill(s: Sys, s': Sys, q: Path)
    requires Site(s, q) && (KernelPath(q) ==> s' == s)
    ensures Site(s', q) && (KernelPath(q) ==> q.v == TEMP) && (q.v == TEMP ==> KernelPath(q))
  {
  }

  /** One page comes free if the entry named another page and was the only one to name it. */
  function Displaced(s: Sys, was: Word, p: nat): nat {
    if was.p && was.ppn != p && was.ppn < |s.ref| && s.ref[was.ppn] == 1 then 1 else 0
  }

  /** New tables change nothing about the page that is mapped. */
  lemma DisplacedSame(s: Sys, s1: Sys, q: Path, r: int, p: nat)
    requires Inv(s) && Inv(s1) && Root(s, r, q) && Root(s1, r, q) && s1.c == s.c
    requires if KernelPath(q) then s1 == s else Grown(s, s1, q.t)
    ensures Displaced(s1, Leaf(s1.m, 4, r, q), p) == Displaced(s, Leaf(s.m, 4, r, q), p)
  {
    hide Cnt, Ent, Leaf, Node, Slot, Tables, Maps, KernelHalf, Forest;
    if !KernelPath(q) {
      RootLeaf(s.m, r, q);
      RootLeaf(s1.m, r, q);
      var was := Pte(s.m, q);
      assert Pte(s1.m, q) == was;
      if was.p {
        PteTarget(s, q);
        PteTarget(s1, q);
        SameTemp(s, s1);
        assert Refs(s1, was.ppn) == Refs(s, was.ppn);
      }
    }
  }

  lemma StoredNodes(s: Sys, r: int, q: Path, N: nat, e: Word)
    requires Inv(s) && Root(s, r, q) && !KernelPath(q) && Node(s.m, 4, r, q, 1) == Some(N)
    requires N < |s.m.phys| && q.v.i1 < |s.m.phys[N]|
    ensures SameNodes(s.m, SetWord(s.m, N, q.v.i1, e), q.t)
  {
    hide Cnt, Ent, Leaf, Node, KernelHalf, Exact;
    RootLeaf(s.m, r, q);
    SetWordWrote(s.m, N, q.v.i1, e);
    forall v: Vpage, l: nat | v.i4 < s.m.width && 1 <= l <= 3
      ensures Node(SetWord(s.m, N, q.v.i1, e), 5, TOP, Path(q.t, v), l) == Node(s.m, 5, TOP, Path(q.t, v), l)
    {
      LeafWriteNode(s.m, SetWord(s.m, N, q.v.i1, e), q, N, e, Path(q.t, v), l);
    }
  }

  /** The rest of page_insert, with the table `T` that holds the entry for `va`. */
  method PutEntry(k: Machine, pml4: nat, p: nat, va: nat, e: Word, T: nat, ghost t: nat)
    requires k.Valid() && Inv(k.S()) && Root(k.S(), pml4, PathOf(t, va)) && Site(k.S(), PathOf(t, va))
    requires Node(k.S().m, 4, pml4, PathOf(t, va), 1) == Some(T)
    requires e.p && e.ppn == p && InUse(k.S(), p) && Tables(k.S().m, p) == 0
    modifies k`phys, k`ref, k.free.Repr()
    ensures k.Valid() && Inv(k.S()) && StoredAt(old(k.S()), k.S(), pml4, PathOf(t, va), e)
    ensures !KernelPath(PathOf(t, va)) ==> Retargeted(old(k.S()), k.S(), PathOf(t, va), e)
    ensures KernelPath(PathOf(t, va)) ==>
              TempFits(k.img, old(k.S())) && k.S() == Mapped(old(k.S()), k.img.kpt, TEMP.i1, e)
    ensures !KernelPath(PathOf(t, va)) ==> SameNodes(old(k.S().m), k.S().m, t)
    ensures |k.free.elems| == |old(k.free.elems)| + Displaced(old(k.S()), Leaf(old(k.S().m), 4, pml4, PathOf(t, va)), p)
  {
    hide Inv, Node, Leaf, Linked, Retargeted, Tables, StoredAt, PageOfAddr, SameNodes, Displaced;
    var i1 := PageOfAddr(va).i1;
    ghost var q, s := PathOf(t, va), k.S();
    if KernelPath(q) { TempNode(s, pml4, t); }
    InsertInv(s, pml4, q, T, e);
    if !KernelPath(q) { StoredNodes(s, pml4, q, T, e); }
    if PteAddr(k.phys[T][i1]) == p * PAGE_SIZE {
      k.phys := k.phys[T := k.phys[T][i1 := e]];
    } else {
      PageRemove(k, pml4, va, t);
      k.phys := k.phys[T := k.phys[T][i1 := e]];
      PageIncref(k, p);
    }
    assert k.S() == Stored(s, T, i1, e);
    StoredIs(s, T, i1, e);
  }

  lemma StoredIs(s: Sys, N: nat, x: nat, e: Word)
    requires N < |s.m.phys| && x < |s.m.phys[N]| && e.ppn < |s.ref|
    requires At(s.m, N, x).p ==> At(s.m, N, x).ppn < |s.ref| && s.ref[At(s.m, N, x).ppn] > 0
    ensures Stored(s, N, x, e).m == SetWord(s.m, N, x, e)
    ensures |Stored(s, N, x, e).free| == |s.free| + Displaced(s, At(s.m, N, x), e.ppn)
  {
    SetTwice(s.m, N, x, e);
  }
}
